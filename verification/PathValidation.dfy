/** validatePath (zk/util.go:58-116): a single pass over the runes of a path,
    against a specification by components. */
module PathValidation {
  import opened Text
  import opened Bytes
  import opened Utf8

  const SLASH: byte := 47
  const DOT: byte := 46

  // ----- the specification

  /** Code points a path must not contain. */
  predicate Forbidden(c: int)
  {
    || 0 <= c <= 0x1f
    || 0x7f <= c <= 0x9f
    || 0xf000 <= c <= 0xf8ff
    || 0xfff0 <= c < 0xffff
  }

  predicate AllAllowed(cs: seq<int>) { forall k :: 0 <= k < |cs| ==> IsScalar(cs[k]) && !Forbidden(cs[k]) }

  /** s is the encoding of these allowed code points. */
  ghost predicate CleanAs(s: seq<byte>, cs: seq<int>) { AllAllowed(cs) && s == EncodeAll(cs) }

  /** Well-formed UTF-8 without a forbidden code point. */
  ghost predicate CleanText(s: seq<byte>)
  {
    exists cs :: CleanAs(s, cs)
  }

  /** Component k of a path is acceptable: not empty, unless a sequential path ends
      with a slash; not ".."; and not ".", except as the first of several. */
  predicate GoodComponent(parts: seq<seq<byte>>, k: nat, isSequential: bool)
    requires k < |parts|
  {
    && (parts[k] == [] ==> k == |parts| - 1 && isSequential)
    && parts[k] != [DOT, DOT]
    && (parts[k] == [DOT] ==> k == 0 && |parts| > 1)
  }

  predicate GoodComponents(parts: seq<seq<byte>>, isSequential: bool)
  {
    forall k :: 0 <= k < |parts| ==> GoodComponent(parts, k, isSequential)
  }

  ghost predicate ValidPath(path: seq<byte>, isSequential: bool)
  {
    && path != [] && path[0] == SLASH
    && (|path| == 1 || (CleanText(path[1..]) && GoodComponents(Split(path[1..], SLASH), isSequential)))
  }

  // ----- components, read from left to right

  /** The verdict on a last component. */
  predicate GoodLast(cur: seq<byte>, isSequential: bool)
  {
    (cur == [] ==> isSequential) && cur != [DOT] && cur != [DOT, DOT]
  }

  /** The verdict on a component that a slash ends. */
  predicate GoodInner(cur: seq<byte>, first: bool)
  {
    cur != [] && cur != [DOT, DOT] && (cur == [DOT] ==> first)
  }

  /** The verdict on a suffix s of the path, when `cur` is what was read of the
      current component. */
  function Verdict(cur: seq<byte>, first: bool, s: seq<byte>, isSequential: bool): bool
    decreases |s|
  {
    if s == [] then GoodLast(cur, isSequential)
    else if s[0] == SLASH then GoodInner(cur, first) && Verdict([], false, s[1..], isSequential)
    else Verdict(cur + [s[0]], first, s[1..], isSequential)
  }

  /** GoodComponents of the components cur + rest[0], rest[1], ...; `first` tells
      whether cur belongs to the first component of the path. */
  predicate GoodFrom(cur: seq<byte>, first: bool, rest: seq<seq<byte>>, isSequential: bool)
    requires rest != []
    decreases |rest|
  {
    if |rest| == 1 then GoodLast(cur + rest[0], isSequential)
    else GoodInner(cur + rest[0], first) && GoodFrom([], false, rest[1..], isSequential)
  }

  lemma {:induction false} VerdictIsGoodFrom(cur: seq<byte>, first: bool, s: seq<byte>, isSequential: bool)
    ensures Verdict(cur, first, s, isSequential) == GoodFrom(cur, first, Split(s, SLASH), isSequential)
    decreases |s|
  {
    if s == [] {
      assert cur + [] == cur;
    } else {
      var rest := Split(s[1..], SLASH);
      if s[0] == SLASH {
        VerdictIsGoodFrom([], false, s[1..], isSequential);
        assert ([[]] + rest)[1..] == rest;
        assert cur + [] == cur;
      } else {
        VerdictIsGoodFrom(cur + [s[0]], first, s[1..], isSequential);
        assert Split(s, SLASH)[1..] == rest[1..];
        assert cur + ([s[0]] + rest[0]) == cur + [s[0]] + rest[0];
      }
    }
  }

  /** GoodFrom read as a statement about each component of a whole list. */
  lemma {:induction false} GoodFromMeans(all: seq<seq<byte>>, k: nat, isSequential: bool)
    requires k < |all|
    ensures GoodFrom([], k == 0, all[k..], isSequential) <==>
            forall j :: k <= j < |all| ==> GoodComponent(all, j, isSequential)
    decreases |all| - k
  {
    var rest := all[k..];
    assert rest[0] == all[k] && [] + rest[0] == all[k];
    if k + 1 < |all| {
      assert rest[1..] == all[k + 1..];
      GoodFromMeans(all, k + 1, isSequential);
      assert GoodInner(all[k], k == 0) <==> GoodComponent(all, k, isSequential);
    } else {
      assert GoodLast(all[k], isSequential) <==> GoodComponent(all, k, isSequential);
    }
  }

  lemma {:induction false} VerdictMeans(s: seq<byte>, isSequential: bool)
    ensures Verdict([], true, s, isSequential) <==> GoodComponents(Split(s, SLASH), isSequential)
  {
    var parts := Split(s, SLASH);
    VerdictIsGoodFrom([], true, s, isSequential);
    GoodFromMeans(parts, 0, isSequential);
    assert parts[0..] == parts;
  }

  /** Text without a slash extends the current component. */
  lemma {:induction false} VerdictSkip(cur: seq<byte>, first: bool, chunk: seq<byte>, s: seq<byte>, isSequential: bool)
    requires SLASH !in chunk
    ensures Verdict(cur, first, chunk + s, isSequential) == Verdict(cur + chunk, first, s, isSequential)
    decreases |chunk|
  {
    if chunk == [] {
      assert chunk + s == s && cur + chunk == cur;
    } else {
      assert (chunk + s)[1..] == chunk[1..] + s;
      VerdictSkip(cur + [chunk[0]], first, chunk[1..], s, isSequential);
      assert cur + [chunk[0]] + chunk[1..] == cur + chunk;
    }
  }

  // ----- the rune at the current position

  /** If the rest of the path begins with a malformed or forbidden sequence, the
      whole is not clean. */
  lemma {:induction false} DirtyRune(s: seq<byte>, cs: seq<int>, rest: seq<byte>)
    requires AllAllowed(cs) && s == EncodeAll(cs) + rest && rest != []
    requires Malformed(rest) || Forbidden(Decode(rest).0)
    ensures !CleanText(s)
  {
    if CleanText(s) {
      var ds :| CleanAs(s, ds);
      EncodeAllPrefix(cs, ds, rest);
      assert EncodeAll([]) == [];
      var left := ds[|cs|..];
      DecodeEncoded(left[0], EncodeAll(left[1..]));
      assert false;
    }
  }

  lemma {:induction false} CleanRune(s: seq<byte>, i: nat, cs: seq<int>)
    requires i < |s| && AllAllowed(cs) && s[..i] == EncodeAll(cs)
    requires !Malformed(s[i..]) && !Forbidden(Decode(s[i..]).0)
    ensures var (r, w) := Decode(s[i..]);
            AllAllowed(cs + [r]) && i + w <= |s| && s[..i + w] == EncodeAll(cs + [r])
  {
    var (r, w) := Decode(s[i..]);
    DecodedIsEncoding(s[i..]);
    EncodeAllSnoc(cs, r);
    assert s[..i + w] == s[..i] + s[i..][..w];
  }

  /** A rune other than ASCII has no byte that could be a slash or a dot. */
  lemma {:induction false} WideRune(s: seq<byte>)
    requires s != [] && !Malformed(s) && Decode(s).0 >= 0x80
    ensures forall k :: 0 <= k < Decode(s).1 ==> s[k] >= 0x80
  {
    DecodedIsEncoding(s);
    WideBytes(Decode(s).0);
    var e := s[..Decode(s).1];
    assert forall k :: 0 <= k < |e| ==> s[k] == e[k];
  }

  // ----- the loop

  /** What is known of the current component when the loop stands at i: `cur` is
      the text since the last slash, and a component that may be "." or ".." so far
      is known to go on. */
  ghost predicate AtRune(path: seq<byte>, i: nat, w: nat, cur: seq<byte>, first: bool, isSequential: bool)
  {
    && 1 <= i <= |path| && path[0] == SLASH
    && |cur| < i && path[i - |cur| - 1] == SLASH && path[i - |cur|..i] == cur && SLASH !in cur
    && (first <==> |cur| == i - 1)
    && (cur == [DOT, DOT] ==> i < |path| && path[i] != SLASH)
    && (cur == [DOT] ==> i < |path| && (first || path[i] != SLASH))
    && (i == 1 ==> w == 0)
    && (i > 1 && path[i - 1] < 0x80 ==> w == 1)
    && (path[|path| - 1] == SLASH && |path| > 1 ==> isSequential)
  }

  /** At the end of the path nothing is left to object to. */
  lemma {:induction false} AtEnd(path: seq<byte>, w: nat, cur: seq<byte>, first: bool, isSequential: bool)
    requires AtRune(path, |path|, w, cur, first, isSequential) && |path| > 1
    ensures Verdict(cur, first, [], isSequential)
  {
  }

  /** Stepping over a slash that follows text. */
  lemma {:induction false} StepSlash(path: seq<byte>, i: nat, w: nat, cur: seq<byte>, first: bool, isSequential: bool)
    requires AtRune(path, i, w, cur, first, isSequential) && i < |path| && path[i] == SLASH
    ensures path[i - 1] == SLASH <==> cur == []
    ensures cur == [] ==> !Verdict(cur, first, path[i..], isSequential)
    ensures cur != [] ==> AtRune(path, i + 1, 1, [], false, isSequential)
                          && Verdict(cur, first, path[i..], isSequential) == Verdict([], false, path[i + 1..], isSequential)
  {
    assert path[i..][1..] == path[i + 1..];
    if cur != [] {
      assert cur[|cur| - 1] == path[i - 1];
    }
  }

  /** Stepping over a rune that is neither a slash nor a dot. */
  lemma {:induction false} StepOther(path: seq<byte>, i: nat, w: nat, cur: seq<byte>, first: bool, isSequential: bool, width: nat)
    requires AtRune(path, i, w, cur, first, isSequential) && i + width <= |path| && width >= 1
    requires SLASH !in path[i..i + width] && path[i + width - 1] != DOT
    requires path[i + width - 1] < 0x80 ==> width == 1
    ensures AtRune(path, i + width, width, cur + path[i..i + width], first, isSequential)
    ensures Verdict(cur, first, path[i..], isSequential)
            == Verdict(cur + path[i..i + width], first, path[i + width..], isSequential)
  {
    hide *;
    Cut(path, i, width);
    VerdictSkip(cur, first, path[i..i + width], path[i + width..], isSequential);
    MoveOther(path, i, w, cur, first, isSequential, width);
  }

  lemma {:induction false} Cut(path: seq<byte>, i: nat, width: nat)
    requires i + width <= |path|
    ensures path[i..] == path[i..i + width] + path[i + width..]
  {
  }

  lemma {:induction false} MoveOther(path: seq<byte>, i: nat, w: nat, cur: seq<byte>, first: bool, isSequential: bool, width: nat)
    requires AtRune(path, i, w, cur, first, isSequential) && i + width <= |path| && width >= 1
    requires SLASH !in path[i..i + width] && path[i + width - 1] != DOT
    requires path[i + width - 1] < 0x80 ==> width == 1
    ensures AtRune(path, i + width, width, cur + path[i..i + width], first, isSequential)
  {
    var start := i - |cur|;
    var next := cur + path[i..i + width];
    assert path[start..i + width] == path[start..i] + path[i..i + width];
    assert |next| == i + width - start && next[|next| - 1] == path[i + width - 1];
  }

  /** Whether the dot at i starts or completes a "." or ".." component so far: the
      look-back of the source, in terms of the current component. */
  lemma {:induction false} LookBack(path: seq<byte>, i: nat, w: nat, cur: seq<byte>, first: bool, isSequential: bool)
    requires AtRune(path, i, w, cur, first, isSequential) && i < |path|
    ensures path[i - 1] == DOT ==> i >= 2
    ensures (i == 1 ==> w == 0) && (i > 1 && path[i - 1] < 0x80 ==> w == 1)
    ensures (if path[i - 1] == DOT then path[i - 2] else path[i - 1]) == SLASH <==> cur == [] || cur == [DOT]
  {
    if cur != [] {
      assert cur[|cur| - 1] == path[i - 1];
      if |cur| >= 2 {
        assert cur[|cur| - 2] == path[i - 2];
      }
    }
  }

  /** A dot that makes the component "." or ".." is refused exactly when the
      component ends there; a first component "." that a slash ends is missed. */
  lemma {:induction false} StepDot(path: seq<byte>, i: nat, w: nat, cur: seq<byte>, first: bool, isSequential: bool)
    requires AtRune(path, i, w, cur, first, isSequential) && i < |path| && path[i] == DOT
    ensures var ends := (cur == [] || cur == [DOT]) && (i + 1 == |path| || (path[i + 1] == SLASH && i > 1));
            && (ends ==> !Verdict(cur, first, path[i..], isSequential))
            && (!ends ==>
                  && AtRune(path, i + 1, 1, cur + [DOT], first, isSequential)
                  && Verdict(cur, first, path[i..], isSequential) == Verdict(cur + [DOT], first, path[i + 1..], isSequential))
  {
    var next := cur + [DOT];
    assert path[i..][1..] == path[i + 1..];
    assert next[|next| - 1] == DOT;
    assert cur == next[..|next| - 1];
    assert next == [DOT, DOT] ==> cur == [DOT];
    assert next == [DOT] ==> cur == [];
    assert path[i + 1 - |next|..i + 1] == next;
    if i + 1 < |path| && path[i + 1] == SLASH {
      assert path[i + 1..][0] == SLASH;
    }
  }

  /** The last rune before position i, when it is an ASCII value c. */
  lemma {:induction false} LastBefore(path: seq<byte>, i: nat, c: int)
    requires 1 <= i <= |path| && 0 <= c < 0x80
    ensures DecodeLast(path[..i]).0 == c <==> path[i - 1] == c
    ensures path[i - 1] == c ==> DecodeLast(path[..i]).1 == 1
  {
    LastAscii(path[..i], c);
  }

  /** The source's test at a dot. */
  method DotEnds(path: seq<byte>, i: nat, w: nat) returns (bad: bool)
    requires 1 <= i < |path| && path[0] == SLASH && path[i] == DOT
    requires (i == 1 ==> w == 0) && (i > 1 && path[i - 1] < 0x80 ==> w == 1)
    ensures bad <==> && (if path[i - 1] == DOT && i >= 2 then path[i - 2] else path[i - 1]) == SLASH
                     && (i + 1 == |path| || (path[i + 1] == SLASH && i > 1))
  {
    var (last, lastWidth) := DecodeLast(path[..i]);
    LastBefore(path, i, DOT);
    LastBefore(path, i, SLASH);
    if last == DOT {
      last := DecodeLast(path[..i - lastWidth]).0;
      LastBefore(path, i - 1, SLASH);
    }
    if last == SLASH {
      if i + 1 == |path| {
        return true;
      }
      var (next, width) := Decode(path[i + w..]);
      DecodeAscii(path[i + w..], SLASH);
      return next == SLASH;
    }
    return false;
  }

  /** What the decoded rune at i says about the text read so far and about the
      bytes it stands for. */
  lemma {:induction false} RuneFacts(path: seq<byte>, i: nat, cs: seq<int>)
    requires 1 <= i < |path| && CleanAs(path[1..i], cs)
    ensures var (r, w) := Decode(path[i..]);
            && 1 <= w && i + w <= |path|
            && (r == SLASH <==> path[i] == SLASH) && (r == DOT <==> path[i] == DOT)
            && (Forbidden(r) ==> !CleanText(path[1..]))
            && (!Forbidden(r) ==>
                  && CleanAs(path[1..i + w], cs + [r])
                  && (r != SLASH && r != DOT ==>
                        && SLASH !in path[i..i + w] && path[i + w - 1] != DOT
                        && (path[i + w - 1] < 0x80 ==> w == 1))
                  && (r == SLASH || r == DOT ==> w == 1))
  {
    hide Encode, EncodeAll, Accepts, CleanText;
    var rest := path[i..];
    var (r, w) := Decode(rest);
    DecodeAscii(rest, SLASH);
    DecodeAscii(rest, DOT);
    if Forbidden(r) {
      assert path[1..] == path[1..i] + rest;
      DirtyRune(path[1..], cs, rest);
    } else {
      CleanRune(path[1..], i - 1, cs);
      assert path[1..][i - 1..] == rest && path[1..][..i - 1 + w] == path[1..i + w] && path[1..][..i - 1] == path[1..i];
      AsciiOrWide(path, i);
    }
  }

  lemma {:induction false} AsciiOrWide(path: seq<byte>, i: nat)
    requires i < |path| && !Malformed(path[i..])
    ensures var (r, w) := Decode(path[i..]);
            && (0 <= r < 0x80 ==> w == 1 && path[i] == r)
            && (!(0 <= r < 0x80) ==> forall k :: i <= k < i + w ==> path[k] >= 0x80)
  {
    var rest := path[i..];
    var (r, w) := Decode(rest);
    DecodedIsEncoding(rest);
    if 0 <= r < 0x80 {
      DecodeAscii(rest, r);
    } else {
      WideRune(rest);
      assert forall k :: i <= k < i + w ==> path[k] == rest[k - i];
    }
  }

  lemma {:induction false} TrailingSlash(s: seq<byte>)
    requires s != [] && Last(s) == SLASH
    ensures !GoodComponents(Split(s, SLASH), false)
  {
    var body := s[..|s| - 1];
    assert s == body + [SLASH] + [];
    SplitAt(body, SLASH, []);
    var parts := Split(s, SLASH);
    assert parts[|parts| - 1] == [];
    assert !GoodComponent(parts, |parts| - 1, false);
  }

  lemma {:induction false} Trivial(path: seq<byte>, isSequential: bool)
    ensures path == [] || path[0] != SLASH ==> !ValidPath(path, isSequential)
    ensures |path| == 1 && path[0] == SLASH ==> ValidPath(path, isSequential)
  {
  }

  lemma {:induction false} PathSpec(path: seq<byte>, isSequential: bool)
    requires |path| > 1 && path[0] == SLASH
    ensures ValidPath(path, isSequential) <==>
            CleanText(path[1..]) && GoodComponents(Split(path[1..], SLASH), isSequential)
  {
  }

  lemma {:induction false} AtStart(path: seq<byte>, isSequential: bool)
    requires |path| > 1 && path[0] == SLASH && (isSequential || path[|path| - 1] != SLASH)
    ensures AtRune(path, 1, 0, [], true, isSequential)
    ensures CleanAs(path[1..1], [])
  {
  }

  lemma {:induction false} IsClean(s: seq<byte>, cs: seq<int>)
    requires CleanAs(s, cs)
    ensures CleanText(s)
  {
  }

  /** validatePath accepts exactly the paths of the specification. */
  method Validate(path: seq<byte>, isSequential: bool) returns (ok: bool)
    ensures ok <==> ValidPath(path, isSequential)
  {
    hide AtRune, Verdict, CleanText, CleanAs, Decode, DecodeLast, GoodComponents, ValidPath, Split;
    Trivial(path, isSequential);
    if path == [] {
      return false;
    }
    if path[0] != SLASH {
      return false;
    }
    var n := |path|;
    if n == 1 {
      return true;
    }
    ghost var s := path[1..];
    VerdictMeans(s, isSequential);
    PathSpec(path, isSequential);
    if !isSequential && path[n - 1] == SLASH {
      TrailingSlash(s);
      return false;
    }
    ghost var cs: seq<int> := [];
    ghost var cur: seq<byte> := [];
    ghost var first := true;
    AtStart(path, isSequential);
    var i, w := 1, 0;
    while i < n
      invariant 1 <= i <= n
      invariant AtRune(path, i, w, cur, first, isSequential)
      invariant CleanAs(path[1..i], cs)
      invariant Verdict([], true, s, isSequential) == Verdict(cur, first, path[i..], isSequential)
      decreases n - i
    {
      var (r, width) := Decode(path[i..]);
      RuneFacts(path, i, cs);
      if r == 0 {
        return false;
      } else if r == SLASH {
        StepSlash(path, i, w, cur, first, isSequential);
        LastBefore(path, i, SLASH);
        var (last, lastWidth) := DecodeLast(path[..i]);
        if last == SLASH {
          return false;
        }
        cur, first := [], false;
      } else if r == DOT {
        LookBack(path, i, w, cur, first, isSequential);
        StepDot(path, i, w, cur, first, isSequential);
        var bad := DotEnds(path, i, w);
        if bad {
          return false;
        }
        cur := cur + [DOT];
      } else if 0 <= r <= 0x1f || 0x7f <= r <= 0x9f || 0xf000 <= r <= 0xf8ff || 0xfff0 <= r < 0xffff {
        return false;
      } else {
        StepOther(path, i, w, cur, first, isSequential, width);
        cur := cur + path[i..i + width];
      }
      cs := cs + [r];
      w := width;
      i := i + w;
    }
    AtEnd(path, w, cur, first, isSequential);
    assert path[1..n] == s && path[i..] == [];
    IsClean(s, cs);
    return true;
  }

  // ----- the specification that was meant

  /** No component at all is ".". */
  predicate NoDots(parts: seq<seq<byte>>)
  {
    forall k :: 0 <= k < |parts| ==> parts[k] != [DOT]
  }

  /** The paths that validatePath means to accept. */
  ghost predicate MeantPath(path: seq<byte>, isSequential: bool)
  {
    ValidPath(path, isSequential) && NoDots(Split(path[1..], SLASH))
  }

  predicate StartsWithDot(path: seq<byte>)
  {
    |path| >= 3 && path[0] == SLASH && path[1] == DOT && path[2] == SLASH
  }

  /** The first of several components is "." exactly when a slash follows the dot. */
  lemma {:induction false} FirstIsDot(s: seq<byte>)
    ensures |Split(s, SLASH)| > 1 && Split(s, SLASH)[0] == [DOT] <==> |s| >= 2 && s[0] == DOT && s[1] == SLASH
  {
    if |s| >= 2 && s[0] == DOT && s[1] == SLASH {
      assert s == [DOT] + [SLASH] + s[2..];
      SplitAt([DOT], SLASH, s[2..]);
      SplitFree([DOT], SLASH);
    }
    if |Split(s, SLASH)| > 1 && Split(s, SLASH)[0] == [DOT] {
      JoinSplit(s, SLASH);
    }
  }

  /** What is accepted differs from what was meant exactly on the paths that begin
      with "/./". */
  lemma {:induction false} AcceptedByMistake(path: seq<byte>, isSequential: bool)
    ensures MeantPath(path, isSequential) <==> ValidPath(path, isSequential) && !StartsWithDot(path)
  {
    if ValidPath(path, isSequential) {
      var parts := Split(path[1..], SLASH);
      FirstIsDot(path[1..]);
      if |path| == 1 {
        assert path[1..] == [];
      } else if !StartsWithDot(path) {
        forall k | 0 <= k < |parts| ensures parts[k] != [DOT] {
          assert GoodComponent(parts, k, isSequential);
        }
      }
    }
  }

  lemma {:induction false} ThreeAscii(a: byte, b: byte, c: byte)
    requires a < 0x80 && b < 0x80 && c < 0x80
    ensures EncodeAll([a, b, c]) == [a, b, c]
  {
    assert [a, b, c][1..] == [b, c] && [b, c][1..] == [c];
    assert EncodeAll([c]) == [c] && EncodeAll([b, c]) == [b] + [c];
  }

  /** For one, "/./x" is accepted. */
  lemma {:induction false} DotSlashAccepted(isSequential: bool)
    ensures ValidPath([47, 46, 47, 120], isSequential) && !MeantPath([47, 46, 47, 120], isSequential)
  {
    var path: seq<byte> := [47, 46, 47, 120];
    var s := path[1..];
    assert s == [DOT] + [SLASH] + [120];
    SplitAt([DOT], SLASH, [120]);
    SplitFree([DOT], SLASH);
    SplitFree([120], SLASH);
    ThreeAscii(DOT, SLASH, 120);
    IsClean(s, [DOT, SLASH, 120]);
    assert StartsWithDot(path);
    AcceptedByMistake(path, isSequential);
  }

  // ----- accepted paths, byte by byte

  /** No control character of ASCII is in the encoding of allowed code points. */
  lemma {:induction false} CleanBytes(cs: seq<int>)
    requires AllAllowed(cs)
    ensures forall k :: 0 <= k < |EncodeAll(cs)| ==> EncodeAll(cs)[k] >= 0x20 && EncodeAll(cs)[k] != 0x7f
  {
    if cs != [] {
      CleanBytes(cs[1..]);
      if cs[0] >= 0x80 {
        WideBytes(cs[0]);
      }
    }
  }

  /** The components behind a slash are the last ones of the path. */
  lemma {:induction false} SuffixParts(path: seq<byte>, k: nat) returns (m: nat)
    requires k < |path| && path[0] == SLASH && path[k] == SLASH
    ensures m < |Split(path[1..], SLASH)| && Split(path[1..], SLASH)[m..] == Split(path[k + 1..], SLASH)
  {
    var s := path[1..];
    if k == 0 {
      m := 0;
    } else {
      assert s == s[..k - 1] + [SLASH] + path[k + 1..];
      SplitAt(s[..k - 1], SLASH, path[k + 1..]);
      m := |Split(s[..k - 1], SLASH)|;
    }
  }

  lemma {:induction false} EmptyFirst(t: seq<byte>)
    requires t != [] && t[0] == SLASH
    ensures |Split(t, SLASH)| > 1 && Split(t, SLASH)[0] == []
  {
  }

  lemma {:induction false} DotsFirst(t: seq<byte>)
    requires |t| >= 2 && t[0] == DOT && t[1] == DOT && (|t| == 2 || t[2] == SLASH)
    ensures Split(t, SLASH)[0] == [DOT, DOT]
  {
    SplitFree([DOT, DOT], SLASH);
    if |t| == 2 {
      assert t == [DOT, DOT];
    } else {
      assert t == [DOT, DOT] + [SLASH] + t[3..];
      SplitAt([DOT, DOT], SLASH, t[3..]);
    }
  }

  /** An accepted path begins with '/', holds no ASCII control character, no two
      slashes in a row and no "..", and ends with '/' only as the root or as the
      path of a sequential node. */
  lemma {:induction false} AcceptedBytes(path: seq<byte>, isSequential: bool)
    requires ValidPath(path, isSequential)
    ensures path != [] && path[0] == 47
    ensures forall k :: 0 <= k < |path| ==> path[k] >= 0x20 && path[k] != 0x7f
    ensures forall k :: 0 <= k < |path| - 1 ==> !(path[k] == 47 && path[k + 1] == 47)
    ensures forall k :: 0 <= k < |path| - 2 && path[k] == 47 && path[k + 1] == 46 && path[k + 2] == 46 ==>
              k + 3 < |path| && path[k + 3] != 47
    ensures path[|path| - 1] == 47 ==> |path| == 1 || isSequential
  {
    if |path| > 1 {
      var s := path[1..];
      var cs :| CleanAs(s, cs);
      CleanBytes(cs);
      assert forall k :: 0 < k < |path| ==> path[k] == s[k - 1];
      var parts := Split(s, SLASH);
      forall k | 0 <= k < |path| - 1 && path[k] == 47 ensures path[k + 1] != 47 {
        NoEmptyBehind(path, k, isSequential);
      }
      forall k | 0 <= k < |path| - 2 && path[k] == 47 && path[k + 1] == 46 && path[k + 2] == 46
        ensures k + 3 < |path| && path[k + 3] != 47
      {
        NoDotsBehind(path, k, isSequential);
      }
      if !isSequential && path[|path| - 1] == 47 {
        TrailingSlash(s);
      }
    }
  }

  lemma {:induction false} NoEmptyBehind(path: seq<byte>, k: nat, isSequential: bool)
    requires k + 1 < |path| && path[0] == SLASH && path[k] == SLASH
    requires GoodComponents(Split(path[1..], SLASH), isSequential)
    ensures path[k + 1] != SLASH
  {
    hide Split;
    if path[k + 1] == SLASH {
      var m := SuffixParts(path, k);
      EmptyFirst(path[k + 1..]);
      assert GoodComponent(Split(path[1..], SLASH), m, isSequential);
    }
  }

  lemma {:induction false} NoDotsBehind(path: seq<byte>, k: nat, isSequential: bool)
    requires k + 2 < |path| && path[0] == SLASH && path[k] == SLASH && path[k + 1] == DOT && path[k + 2] == DOT
    requires GoodComponents(Split(path[1..], SLASH), isSequential)
    ensures k + 3 < |path| && path[k + 3] != SLASH
  {
    hide Split;
    if k + 3 == |path| || path[k + 3] == SLASH {
      var m := SuffixParts(path, k);
      DotsFirst(path[k + 1..]);
      assert GoodComponent(Split(path[1..], SLASH), m, isSequential);
    }
  }

  /** No code point of an accepted path is in a forbidden range. */
  lemma {:induction false} AllowedPoints(path: seq<byte>, isSequential: bool, cs: seq<int>, k: nat)
    requires ValidPath(path, isSequential) && |path| > 1
    requires AllScalar(cs) && path[1..] == EncodeAll(cs) && k < |cs|
    ensures cs[k] > 0x1f && !(0x7f <= cs[k] <= 0x9f) && !(0xf000 <= cs[k] <= 0xf8ff) && !(0xfff0 <= cs[k] <= 0xfffe)
  {
    var ds :| CleanAs(path[1..], ds);
    assert EncodeAll(ds) == EncodeAll(cs) + [];
    EncodeAllPrefix(cs, ds, []);
  }

  // ----- the specification once more, byte by byte

  /** Component j of a text stands between two slashes, or at an end. */
  lemma {:induction false} PartAt(s: seq<byte>, j: nat) returns (from: nat, to: nat)
    requires j < |Split(s, SLASH)|
    ensures from <= to <= |s| && Split(s, SLASH)[j] == s[from..to]
    ensures (from == 0 <==> j == 0) && (from > 0 ==> s[from - 1] == SLASH)
    ensures (to == |s| <==> j == |Split(s, SLASH)| - 1) && (to < |s| ==> s[to] == SLASH)
  {
    if s == [] || (j == 0 && s[0] == SLASH) {
      from, to := 0, 0;
    } else {
      var rest := Split(s[1..], SLASH);
      var f, t := PartAt(s[1..], if s[0] == SLASH then j - 1 else j);
      from, to := if j == 0 then 0 else f + 1, t + 1;
      Shifted(s, f, t);
      if s[0] == SLASH {
        assert Split(s, SLASH)[j] == rest[j - 1];
      } else {
        assert Split(s, SLASH)[j] == if j == 0 then [s[0]] + rest[0] else rest[j];
      }
    }
  }

  lemma {:induction false} Shifted(s: seq<byte>, from: nat, to: nat)
    requires s != [] && from <= to < |s|
    ensures s[1..][from..to] == s[from + 1..to + 1]
    ensures [s[0]] + s[1..][..to] == s[..to + 1]
    ensures from == 0 ==> s[1..][from..to] == s[1..][..to]
  {
  }

  /** No two slashes in a row, a slash at the end only for a sequential node, no
      "..", and no "." but a first one that a slash follows. */
  predicate FineBytes(path: seq<byte>, isSequential: bool)
  {
    && (forall k :: 0 <= k < |path| - 1 ==> !(path[k] == 47 && path[k + 1] == 47))
    && (path != [] && path[|path| - 1] == 47 ==> isSequential)
    && (forall k :: 0 <= k < |path| - 2 && path[k] == 47 && path[k + 1] == 46 && path[k + 2] == 46 ==>
          k + 3 < |path| && path[k + 3] != 47)
    && (forall k :: 0 <= k < |path| - 1 && path[k] == 47 && path[k + 1] == 46 ==>
          k + 2 < |path| && (path[k + 2] == 47 ==> k == 0))
  }

  /** The encoding of code points outside the forbidden ranges. */
  ghost predicate FinePoints(s: seq<byte>, cs: seq<int>)
  {
    && AllScalar(cs) && s == EncodeAll(cs)
    && forall k :: 0 <= k < |cs| ==>
         cs[k] > 0x1f && !(0x7f <= cs[k] <= 0x9f) && !(0xf000 <= cs[k] <= 0xf8ff) && !(0xfff0 <= cs[k] <= 0xfffe)
  }

  lemma {:induction false} PointsMean(s: seq<byte>)
    ensures CleanText(s) <==> exists cs :: FinePoints(s, cs)
  {
    if CleanText(s) {
      var cs :| CleanAs(s, cs);
      assert FinePoints(s, cs);
    }
    if exists cs :: FinePoints(s, cs) {
      var cs :| FinePoints(s, cs);
      assert CleanAs(s, cs);
    }
  }

  lemma {:induction false} NoDotBehind(path: seq<byte>, k: nat, isSequential: bool)
    requires k + 1 < |path| && path[0] == SLASH && path[k] == SLASH && path[k + 1] == DOT
    requires GoodComponents(Split(path[1..], SLASH), isSequential)
    ensures k + 2 < |path| && (path[k + 2] == SLASH ==> k == 0)
  {
    hide Split;
    if k + 2 == |path| || path[k + 2] == SLASH {
      var m := SuffixParts(path, k);
      DotFirst(path[k + 1..]);
      assert GoodComponent(Split(path[1..], SLASH), m, isSequential);
      if k > 0 {
        LaterPart(path, k, m);
      }
    }
  }

  lemma {:induction false} DotFirst(t: seq<byte>)
    requires t != [] && t[0] == DOT && (|t| == 1 || t[1] == SLASH)
    ensures Split(t, SLASH)[0] == [DOT] && (|t| == 1 ==> |Split(t, SLASH)| == 1)
  {
    SplitFree([DOT], SLASH);
    if |t| == 1 {
      assert t == [DOT];
    } else {
      assert t == [DOT] + [SLASH] + t[2..];
      SplitAt([DOT], SLASH, t[2..]);
    }
  }

  /** Behind a later slash stands no first component. */
  lemma {:induction false} LaterPart(path: seq<byte>, k: nat, m: nat)
    requires 0 < k < |path| && path[0] == SLASH && path[k] == SLASH
    requires m < |Split(path[1..], SLASH)| && Split(path[1..], SLASH)[m..] == Split(path[k + 1..], SLASH)
    ensures m > 0
  {
    var s := path[1..];
    assert s == s[..k - 1] + [SLASH] + path[k + 1..];
    SplitAt(s[..k - 1], SLASH, path[k + 1..]);
  }

  /** The components are good if and only if the bytes are fine. */
  lemma {:induction false} ComponentsByBytes(path: seq<byte>, isSequential: bool)
    requires |path| > 1 && path[0] == SLASH
    ensures GoodComponents(Split(path[1..], SLASH), isSequential) <==> FineBytes(path, isSequential)
  {
    hide Split;
    var s, parts := path[1..], Split(path[1..], SLASH);
    if GoodComponents(parts, isSequential) {
      GoodIsFine(path, isSequential);
    }
    if FineBytes(path, isSequential) {
      forall j | 0 <= j < |parts| ensures GoodComponent(parts, j, isSequential) {
        FineIsGood(path, j, isSequential);
      }
    }
  }

  lemma {:induction false} GoodIsFine(path: seq<byte>, isSequential: bool)
    requires |path| > 1 && path[0] == SLASH && GoodComponents(Split(path[1..], SLASH), isSequential)
    ensures FineBytes(path, isSequential)
  {
    hide Split, GoodComponents;
    forall k | 0 <= k < |path| - 1 && path[k] == 47 ensures path[k + 1] != 47 {
      NoEmptyBehind(path, k, isSequential);
    }
    forall k | 0 <= k < |path| - 2 && path[k] == 47 && path[k + 1] == 46 && path[k + 2] == 46
      ensures k + 3 < |path| && path[k + 3] != 47
    {
      NoDotsBehind(path, k, isSequential);
    }
    forall k | 0 <= k < |path| - 1 && path[k] == 47 && path[k + 1] == 46
      ensures k + 2 < |path| && (path[k + 2] == 47 ==> k == 0)
    {
      NoDotBehind(path, k, isSequential);
    }
    if !isSequential && path[|path| - 1] == 47 {
      TrailingSlash(path[1..]);
    }
  }

  lemma {:induction false} FineIsGood(path: seq<byte>, j: nat, isSequential: bool)
    requires |path| > 1 && path[0] == SLASH && FineBytes(path, isSequential) && j < |Split(path[1..], SLASH)|
    ensures GoodComponent(Split(path[1..], SLASH), j, isSequential)
  {
    hide Split;
    var s := path[1..];
    var from, to := PartAt(s, j);
    assert path[from] == SLASH;
    var part := s[from..to];
    assert part != [] ==> path[from + 1] == part[0];
    assert |part| > 1 ==> path[from + 2] == part[1];
    assert to < |s| ==> path[to + 1] == SLASH;
  }

  /** The paths that validatePath accepts, in terms of their bytes and code points. */
  lemma {:induction false} ValidByBytes(path: seq<byte>, isSequential: bool)
    ensures ValidPath(path, isSequential) <==>
              && path != [] && path[0] == 47
              && (|path| == 1 || ((exists cs :: FinePoints(path[1..], cs)) && FineBytes(path, isSequential)))
  {
    hide Split, CleanText, FinePoints, FineBytes, GoodComponents;
    if |path| > 1 && path[0] == SLASH {
      PointsMean(path[1..]);
      ComponentsByBytes(path, isSequential);
    }
  }
}
