/** Lexical path handling on a Unix host, as Go's `path/filepath` package does it:
    `Join` glues path elements together and cleans the result, `Clean` gives the
    shortest path that names the same file by purely lexical processing.
    The plugin registry uses `Join` to turn a logical plugin name into the absolute
    path that keys the registry, so `Load` and `GetByName` share it. */
module FilePath {

  /** The separator between path elements (`filepath.Separator` on Unix). */
  const Separator: char := '/'

  /** The elements of `p` between separators, empty elements included:
      `Split("/a//b") == ["", "a", "", "b"]`. */
  function Split(p: string): (elems: seq<string>)
    ensures |elems| >= 1
    ensures forall i | 0 <= i < |elems| :: Separator !in elems[i]
    decreases |p|
  {
    if p == [] then [[]]
    else if p[0] == Separator then [[]] + Split(p[1..])
    else
      var rest := Split(p[1..]);
      [[p[0]] + rest[0]] + rest[1..]
  }

  /** The elements with one separator between neighbours (`strings.Join(elems, "/")`). */
  function Glue(elems: seq<string>): string
    decreases |elems|
  {
    if |elems| == 0 then ""
    else if |elems| == 1 then elems[0]
    else elems[0] + [Separator] + Glue(elems[1..])
  }

  /** Gluing the pieces of a split gives the path back. */
  lemma {:induction false} GlueSplit(p: string)
    ensures Glue(Split(p)) == p
    decreases |p|
  {
    if p == [] {
    } else if p[0] == Separator {
      GlueSplit(p[1..]);
      assert Glue(Split(p)) == [] + [Separator] + Glue(Split(p[1..]));
      assert p == [p[0]] + p[1..];
    } else {
      GlueSplit(p[1..]);
      var rest := Split(p[1..]);
      assert Split(p) == [[p[0]] + rest[0]] + rest[1..];
      if |rest| == 1 {
        assert Glue(Split(p)) == [p[0]] + rest[0];
        assert p == [p[0]] + p[1..];
      } else {
        assert Glue(rest) == rest[0] + [Separator] + Glue(rest[1..]);
        assert Split(p)[1..] == rest[1..];
        assert Glue(Split(p)) == [p[0]] + rest[0] + [Separator] + Glue(rest[1..]);
        assert p == [p[0]] + p[1..];
      }
    }
  }

  /** A separator-free string splits into itself. */
  lemma {:induction false} SplitPlain(a: string)
    requires Separator !in a
    ensures Split(a) == [a]
    decreases |a|
  {
    if a != [] {
      SplitPlain(a[1..]);
      assert a == [a[0]] + a[1..];
    }
  }

  /** Splitting at the first separator: a separator-free prefix becomes one element. */
  lemma {:induction false} SplitAt(a: string, b: string)
    requires Separator !in a
    ensures Split(a + [Separator] + b) == [a] + Split(b)
    decreases |a|
  {
    if a == [] {
      assert a + [Separator] + b == [Separator] + b;
      assert ([Separator] + b)[1..] == b;
    } else {
      var whole := a + [Separator] + b;
      assert whole[0] == a[0] && whole[1..] == a[1..] + [Separator] + b;
      SplitAt(a[1..], b);
      assert a == [a[0]] + a[1..];
    }
  }

  /** Splitting separator-free elements glued together gives the elements back. */
  lemma {:induction false} SplitGlue(elems: seq<string>)
    requires |elems| >= 1
    requires forall i | 0 <= i < |elems| :: Separator !in elems[i]
    ensures Split(Glue(elems)) == elems
    decreases |elems|
  {
    if |elems| == 1 {
      SplitPlain(elems[0]);
    } else {
      SplitAt(elems[0], Glue(elems[1..]));
      SplitGlue(elems[1..]);
      assert elems == [elems[0]] + elems[1..];
    }
  }

  /** What `Clean` does with one more element `e`, given the elements `out` it has
      kept so far: drop empty and "." elements, let ".." cancel the last kept
      element, keep a ".." that has nothing to cancel only in a relative path. */
  function Step(out: seq<string>, e: string, rooted: bool): seq<string>
  {
    if e == "" || e == "." then out
    else if e == ".." then
      if |out| > 0 && out[|out| - 1] != ".." then out[..|out| - 1]
      else if rooted then out
      else out + [".."]
    else out + [e]
  }

  /** `Step` applied to the elements, left to right. */
  function Fold(out: seq<string>, elems: seq<string>, rooted: bool): seq<string>
    decreases |elems|
  {
    if elems == [] then out else Fold(Step(out, elems[0], rooted), elems[1..], rooted)
  }

  /** The elements of a clean path: none empty, none ".", none holding a separator;
      ".." elements only at the front, and none at all in a rooted path. */
  predicate Canonical(elems: seq<string>, rooted: bool)
  {
    (forall i | 0 <= i < |elems| :: elems[i] != "" && elems[i] != "." && Separator !in elems[i]) &&
    (forall i, j | 0 <= i < j < |elems| && elems[j] == ".." :: elems[i] == "..") &&
    (rooted ==> forall i | 0 <= i < |elems| :: elems[i] != "..")
  }

  /** One step keeps the kept elements canonical. */
  lemma StepCanonical(out: seq<string>, e: string, rooted: bool)
    requires Canonical(out, rooted) && Separator !in e
    ensures Canonical(Step(out, e, rooted), rooted)
  {
  }

  /** Folding separator-free elements onto canonical ones gives canonical ones. */
  lemma {:induction false} FoldCanonical(out: seq<string>, elems: seq<string>, rooted: bool)
    requires Canonical(out, rooted)
    requires forall i | 0 <= i < |elems| :: Separator !in elems[i]
    ensures Canonical(Fold(out, elems, rooted), rooted)
    decreases |elems|
  {
    if elems != [] {
      StepCanonical(out, elems[0], rooted);
      FoldCanonical(Step(out, elems[0], rooted), elems[1..], rooted);
    }
  }

  /** Canonical elements pass through the fold unchanged. */
  lemma {:induction false} FoldIdentity(out: seq<string>, elems: seq<string>, rooted: bool)
    requires Canonical(out + elems, rooted)
    ensures Fold(out, elems, rooted) == out + elems
    decreases |elems|
  {
    if elems != [] {
      var e := elems[0];
      assert (out + elems)[|out|] == e;
      if e == ".." {
        forall i | 0 <= i < |out| ensures out[i] == ".." {
          assert (out + elems)[i] == out[i];
        }
      }
      assert Step(out, e, rooted) == out + [e];
      assert out + [e] + elems[1..] == out + elems;
      FoldIdentity(out + [e], elems[1..], rooted);
    }
  }

  /** A glued list of non-empty elements starts with the first element's first character. */
  lemma GlueHead(elems: seq<string>)
    ensures |elems| >= 1 && elems[0] != "" ==> Glue(elems) != "" && Glue(elems)[0] == elems[0][0]
  {
  }

  /** `filepath.Clean` on Unix: the shortest path naming the same file by lexical
      processing alone; "." for a path that cleans to nothing. */
  function Clean(p: string): (r: string)
    ensures r != ""
    ensures (r[0] == Separator) == (p != "" && p[0] == Separator)
  {
    if p == "" then "."
    else
      var rooted := p[0] == Separator;
      var elems := Fold([], Split(p), rooted);
      FoldCanonical([], Split(p), rooted);
      GlueHead(elems);
      var s := (if rooted then [Separator] else "") + Glue(elems);
      if s == "" then "." else s
  }

  lemma CleanDot()
    ensures Clean(".") == "."
  {
  }

  /** Cleaning a clean path changes nothing. */
  lemma CleanIdempotent(p: string)
    ensures Clean(Clean(p)) == Clean(p)
  {
    if p == "" {
      CleanDot();
    } else {
      var rooted := p[0] == Separator;
      var elems := Fold([], Split(p), rooted);
      FoldCanonical([], Split(p), rooted);
      assert Canonical([] + elems, rooted);
      var c := Clean(p);
      if rooted {
        assert c == [Separator] + Glue(elems);
        assert c[1..] == Glue(elems);
        assert Split(c) == [[]] + Split(Glue(elems));
        if elems == [] {
          assert Split(c) == ["", ""];
          assert Fold([], ["", ""], true) == Fold([], [""], true) == Fold([], [], true) == [];
        } else {
          SplitGlue(elems);
          assert Split(c) == [""] + elems;
          FoldIdentity([], elems, true);
          assert [] + elems == elems;
          assert Split(c)[0] == "" && Split(c)[1..] == elems;
          assert Step([], "", true) == [];
          assert Fold([], Split(c), true) == Fold([], elems, true) == elems;
        }
      } else if elems == [] {
        assert c == ".";
        CleanDot();
      } else {
        GlueHead(elems);
        assert c == Glue(elems);
        SplitGlue(elems);
        FoldIdentity([], elems, false);
        assert [] + elems == elems;
        assert Fold([], Split(c), false) == elems;
        assert c != "" && c[0] != Separator;
      }
    }
  }

  /** `filepath.Join`: empty elements are ignored, the rest are glued with
      separators and the result is cleaned; all-empty input gives "". */
  function Join(elems: seq<string>): (r: string)
    ensures r == "" <==> forall i | 0 <= i < |elems| :: elems[i] == ""
    ensures r != "" ==> Clean(r) == r
    ensures |elems| > 0 && elems[0] != "" ==> (r[0] == Separator <==> elems[0][0] == Separator)
    ensures r != "" ==> (r[0] == Separator <==> NonEmpty(elems)[0][0] == Separator)
    decreases |elems|
  {
    if elems == [] then ""
    else if elems[0] != "" then
      assert NonEmpty(elems)[0] == elems[0];
      GlueHead(elems);
      CleanIdempotent(Glue(elems));
      Clean(Glue(elems))
    else
      assert NonEmpty(elems) == NonEmpty(elems[1..]);
      Join(elems[1..])
  }

  /** The elements that are not empty, in order. */
  function NonEmpty(elems: seq<string>): (r: seq<string>)
    ensures forall i | 0 <= i < |r| :: r[i] != ""
    ensures r == [] <==> forall i | 0 <= i < |elems| :: elems[i] == ""
    decreases |elems|
  {
    if elems == [] then []
    else (if elems[0] == "" then [] else [elems[0]]) + NonEmpty(elems[1..])
  }

  /** The pieces of every element, one element after another. */
  function Pieces(elems: seq<string>): seq<string>
    decreases |elems|
  {
    if elems == [] then [] else Split(elems[0]) + Pieces(elems[1..])
  }

  /** Splitting at any separator: the pieces on both sides, side by side. */
  lemma {:induction false} SplitConcat(a: string, b: string)
    ensures Split(a + [Separator] + b) == Split(a) + Split(b)
    decreases |a|
  {
    var whole := a + [Separator] + b;
    if a == [] {
      assert whole == [Separator] + b && whole[1..] == b;
    } else {
      assert whole[0] == a[0] && whole[1..] == a[1..] + [Separator] + b;
      SplitConcat(a[1..], b);
    }
  }

  /** The pieces of glued elements are the pieces of each element. */
  lemma {:induction false} SplitGluePieces(elems: seq<string>)
    requires |elems| >= 1
    ensures Split(Glue(elems)) == Pieces(elems)
    decreases |elems|
  {
    if |elems| == 1 {
      assert Pieces(elems[1..]) == [];
      assert Split(elems[0]) + [] == Split(elems[0]);
    } else {
      SplitConcat(elems[0], Glue(elems[1..]));
      SplitGluePieces(elems[1..]);
    }
  }

  /** Folding a concatenation is folding one part after the other. */
  lemma {:induction false} FoldConcat(out: seq<string>, xs: seq<string>, ys: seq<string>, rooted: bool)
    ensures Fold(out, xs + ys, rooted) == Fold(Fold(out, xs, rooted), ys, rooted)
    decreases |xs|
  {
    if xs == [] {
      assert xs + ys == ys;
    } else {
      assert (xs + ys)[0] == xs[0] && (xs + ys)[1..] == xs[1..] + ys;
      FoldConcat(Step(out, xs[0], rooted), xs[1..], ys, rooted);
    }
  }

  /** An empty element contributes one empty piece, which the fold drops. */
  lemma {:induction false} FoldSkipsEmpty(out: seq<string>, elems: seq<string>, rooted: bool)
    ensures Fold(out, Pieces(elems), rooted) == Fold(out, Pieces(NonEmpty(elems)), rooted)
    decreases |elems|
  {
    if elems != [] {
      var e, rest := elems[0], elems[1..];
      FoldConcat(out, Split(e), Pieces(rest), rooted);
      FoldSkipsEmpty(Fold(out, Split(e), rooted), rest, rooted);
      if e == "" {
        assert NonEmpty(elems) == NonEmpty(rest);
        assert Split(e) == [""];
        assert Fold(out, [""], rooted) == Fold(out, [], rooted) == out;
        FoldSkipsEmpty(out, rest, rooted);
      } else {
        var ne := NonEmpty(elems);
        assert ne == [e] + NonEmpty(rest);
        assert ne[0] == e && ne[1..] == NonEmpty(rest);
        FoldConcat(out, Split(e), Pieces(NonEmpty(rest)), rooted);
      }
    }
  }

  /** `Join` ignores empty elements wherever they stand. */
  lemma {:induction false} JoinIgnoresEmpty(elems: seq<string>)
    ensures Join(elems) == Join(NonEmpty(elems))
    decreases |elems|
  {
    if elems != [] {
      var e, rest := elems[0], elems[1..];
      if e == "" {
        JoinIgnoresEmpty(rest);
        assert NonEmpty(elems) == NonEmpty(rest);
      } else {
        var ne := NonEmpty(elems);
        assert ne == [e] + NonEmpty(rest);
        assert ne[0] == e;
        GlueHead(elems);
        GlueHead(ne);
        var rooted := e[0] == Separator;
        SplitGluePieces(elems);
        SplitGluePieces(ne);
        FoldSkipsEmpty([], elems, rooted);
        assert Fold([], Split(Glue(elems)), rooted) == Fold([], Split(Glue(ne)), rooted);
        assert Join(elems) == Clean(Glue(elems));
        assert Join(ne) == Clean(Glue(ne));
      }
    }
  }
}
