/** `String.prototype.split` on a one-character separator, and its inverse. */
module Lines {
  import opened Text

  lemma InitLast<T>(xs: seq<T>)
    requires |xs| > 0
    ensures xs[..|xs| - 1] + [xs[|xs| - 1]] == xs
  {
  }

  /** The pieces of `ls` glued back together with `sep` between neighbours. */
  function Join(ls: seq<string>, sep: char): string
    decreases |ls|
  {
    if |ls| == 0 then []
    else if |ls| == 1 then ls[0]
    else Join(ls[..|ls| - 1], sep) + [sep] + ls[|ls| - 1]
  }

  /** Appending a character to the last piece appends it to the joined text. */
  lemma JoinExtendLast(ls: seq<string>, sep: char, c: char)
    requires |ls| >= 1
    ensures Join(ls[..|ls| - 1] + [ls[|ls| - 1] + [c]], sep) == Join(ls, sep) + [c]
  {
    var ms := ls[..|ls| - 1] + [ls[|ls| - 1] + [c]];
    if |ls| > 1 {
      assert ms[..|ms| - 1] == ls[..|ls| - 1];
    }
  }

  /** `s.split(sep)`: the maximal separator-free pieces of `s`, in order. An
      empty text yields one empty piece, and a trailing separator yields a
      trailing empty piece. */
  function Split(s: string, sep: char): (ls: seq<string>)
    ensures |ls| == CountChar(s, sep) + 1
    ensures forall i :: 0 <= i < |ls| ==> sep !in ls[i]
    ensures Join(ls, sep) == s
    decreases |s|
  {
    if |s| == 0 then [[]]
    else
      var init := Split(s[..|s| - 1], sep);
      var c := s[|s| - 1];
      assert s == s[..|s| - 1] + [c];
      if c == sep then
        assert (init + [[]])[..|init|] == init;
        init + [[]]
      else
        JoinExtendLast(init, sep, c);
        init[..|init| - 1] + [init[|init| - 1] + [c]]
  }

  /** One more character either starts a new piece (the separator) or
      extends the last piece. */
  lemma SplitSnoc(s: string, c: char, sep: char)
    ensures var ls := Split(s, sep);
      Split(s + [c], sep) ==
        if c == sep then ls + [[]] else ls[..|ls| - 1] + [ls[|ls| - 1] + [c]]
  {
    assert (s + [c])[..|s + [c]| - 1] == s;
  }

  /** Extending the last piece by `u` and then by `c` extends it by `u + [c]`. */
  lemma ExtendLastPiece(ls: seq<string>, u: string, c: char)
    requires |ls| >= 1
    ensures var ms := ls[..|ls| - 1] + [ls[|ls| - 1] + u];
      ms[..|ms| - 1] + [ms[|ms| - 1] + [c]] == ls[..|ls| - 1] + [ls[|ls| - 1] + (u + [c])]
  {
    var ms := ls[..|ls| - 1] + [ls[|ls| - 1] + u];
    assert ms[..|ms| - 1] == ls[..|ls| - 1];
    assert ms[|ms| - 1] + [c] == ls[|ls| - 1] + (u + [c]);
  }

  /** Splitting text that ends in separator-free `u` extends the last piece. */
  lemma {:induction false} SplitAppendPlain(t: string, u: string, sep: char)
    requires sep !in u
    ensures var ls := Split(t, sep);
      Split(t + u, sep) == ls[..|ls| - 1] + [ls[|ls| - 1] + u]
    decreases |u|
  {
    var ls := Split(t, sep);
    if |u| == 0 {
      assert t + u == t;
      assert ls[|ls| - 1] + u == ls[|ls| - 1];
      InitLast(ls);
    } else {
      var u' := u[..|u| - 1];
      var c := u[|u| - 1];
      assert t + u == (t + u') + [c];
      assert u == u' + [c];
      assert c in u;
      SplitAppendPlain(t, u', sep);
      SplitSnoc(t + u', c, sep);
      ExtendLastPiece(ls, u', c);
    }
  }

  /** Splitting `t`, a separator, then separator-free `u` adds `u` as a piece. */
  lemma SplitAfterSeparator(t: string, u: string, sep: char)
    requires sep !in u
    ensures Split(t + [sep] + u, sep) == Split(t, sep) + [u]
  {
    var ls := Split(t + [sep], sep);
    assert (t + [sep])[..|t + [sep]| - 1] == t;
    assert ls == Split(t, sep) + [[]];
    SplitAppendPlain(t + [sep], u, sep);
    assert ls[..|ls| - 1] == Split(t, sep);
    assert [] + u == u;
  }

  /** Joining one more separator-free piece and splitting again gives it
      back as the last piece. */
  lemma SplitJoinSnoc(init: seq<string>, last: string, sep: char)
    requires |init| >= 1
    requires Split(Join(init, sep), sep) == init
    requires sep !in last
    ensures Split(Join(init + [last], sep), sep) == init + [last]
  {
    var ls := init + [last];
    assert ls[..|ls| - 1] == init;
    SplitAfterSeparator(Join(init, sep), last, sep);
  }

  /** Split undoes Join: pieces free of the separator come back unchanged. */
  lemma {:induction false} SplitJoin(ls: seq<string>, sep: char)
    requires |ls| >= 1
    requires forall i :: 0 <= i < |ls| ==> sep !in ls[i]
    ensures Split(Join(ls, sep), sep) == ls
    decreases |ls|
  {
    if |ls| == 1 {
      SplitAppendPlain([], ls[0], sep);
      assert [] + ls[0] == ls[0];
      assert Split([], sep) == [[]];
      assert Split(Join(ls, sep), sep) == [[] + ls[0]];
    } else {
      var init := ls[..|ls| - 1];
      forall i | 0 <= i < |init| ensures sep !in init[i] {
        assert init[i] == ls[i];
      }
      SplitJoin(init, sep);
      SplitJoinSnoc(init, ls[|ls| - 1], sep);
      InitLast(ls);
    }
  }

  /** Away from the separator, the characters of the joined text are those of
      the pieces. */
  lemma {:induction false} CountCharJoinSnoc(ls: seq<string>, line: string, sep: char, c: char)
    requires c != sep
    ensures CountChar(Join(ls + [line], sep), c) == CountChar(Join(ls, sep), c) + CountChar(line, c)
  {
    var ms := ls + [line];
    assert ms[..|ms| - 1] == ls;
    if |ls| > 0 {
      CountCharConcat(Join(ls, sep) + [sep], line, c);
      CountCharConcat(Join(ls, sep), [sep], c);
      assert [sep][..0] == [];
    }
  }
}
