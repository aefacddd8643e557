/** Canonical paths as strings, and that every operation on the string is the operation
    on the sequence of components it stands for. */
module CanonPath {
  import opened Results
  import opened Wire
  import opened Nar

  type Parts = seq<bytes>

  predicate AllValid(cs: Parts) {
    forall i :: 0 <= i < |cs| ==> ValidName(cs[i])
  }

  /** Each component behind a slash: absOrEmpty. */
  function Slashed(cs: Parts): bytes {
    if cs == [] then [] else Slashed(cs[..|cs| - 1]) + [SLASH] + cs[|cs| - 1]
  }

  function Abs(cs: Parts): bytes {
    if cs == [] then [SLASH] else Slashed(cs)
  }

  // ------------------------------------------------------ finding separators

  /** find('/'), or the length. */
  function FirstSlash(s: bytes): (i: nat)
    ensures i <= |s| && SLASH !in s[..i] && (i < |s| ==> s[i] == SLASH)
  {
    if s == [] || s[0] == SLASH then 0 else 1 + FirstSlash(s[1..])
  }

  /** rfind('/'), or None. */
  function LastSlash(s: bytes): (i: Option<nat>)
    ensures i.Some? ==> i.value < |s| && s[i.value] == SLASH && SLASH !in s[i.value + 1..]
    ensures i.None? ==> SLASH !in s
  {
    if s == [] then None
    else if s[|s| - 1] == SLASH then Some(|s| - 1)
    else LastSlash(s[..|s| - 1])
  }

  lemma {:induction false} LastSlashIs(a: bytes, c: bytes)
    requires SLASH !in c
    ensures LastSlash(a + [SLASH] + c) == Some(|a|)
  {
    var s := a + [SLASH] + c;
    if c != [] {
      assert s[..|s| - 1] == a + [SLASH] + c[..|c| - 1];
      LastSlashIs(a, c[..|c| - 1]);
    }
  }

  lemma {:induction false} FirstSlashIs(a: bytes, b: bytes)
    requires SLASH !in a && (b == [] || b[0] == SLASH)
    ensures FirstSlash(a + b) == |a|
  {
    if a == [] {
      assert a + b == b;
    } else {
      assert (a + b)[1..] == a[1..] + b;
      FirstSlashIs(a[1..], b);
    }
  }

  // ------------------------------------------------------------ split and join

  /** The fields between slashes. */
  function Fields(raw: bytes): (fs: Parts)
    ensures |fs| > 0
  {
    var i := FirstSlash(raw);
    if i == |raw| then [raw] else [raw[..i]] + Fields(raw[i + 1..])
  }

  const DOT: bytes := [46]
  const DOTDOT: bytes := [46, 46]

  /** Dots and empty fields vanish, a double dot takes the last component back. */
  function Resolve(cs: Parts, fields: Parts): Parts
    decreases |fields|
  {
    if fields == [] then cs else
    var c := fields[0];
    Resolve(if c == [] || c == DOT then cs
            else if c == DOTDOT then (if cs == [] then [] else cs[..|cs| - 1])
            else cs + [c], fields[1..])
  }

  lemma FieldsOfTail(s: bytes)
    ensures Fields([SLASH] + s) == [[]] + Fields(s)
  {
    assert ([SLASH] + s)[..0] == [] && ([SLASH] + s)[1..] == s;
  }

  lemma {:induction false} ResolveValid(cs: Parts, fields: Parts)
    requires AllValid(fields)
    ensures Resolve(cs, fields) == cs + fields
    decreases |fields|
  {
    if fields != [] {
      ResolveValid(cs + [fields[0]], fields[1..]);
    }
  }

  lemma SlashedOne(cs: Parts, c: bytes)
    ensures Slashed(cs + [c]) == Slashed(cs) + [SLASH] + c
  {
    assert (cs + [c])[..|cs|] == cs;
  }

  lemma {:induction false} SlashedConcat(cs: Parts, ds: Parts)
    ensures Slashed(cs + ds) == Slashed(cs) + Slashed(ds)
  {
    if ds == [] {
      assert cs + ds == cs;
    } else {
      var n := |ds| - 1;
      assert (cs + ds)[..|cs| + n] == cs + ds[..n];
      SlashedConcat(cs, ds[..n]);
    }
  }

  lemma SlashedStarts(cs: Parts)
    requires cs != []
    ensures Slashed(cs) != [] && Slashed(cs)[0] == SLASH
  {
    assert cs == [cs[0]] + cs[1..];
    SlashedConcat([cs[0]], cs[1..]);
    var one: Parts := [cs[0]];
    assert one[..0] == [];
    assert Slashed(one) == [SLASH] + cs[0];
  }

  lemma FieldsStep(a: bytes, rest: bytes)
    requires SLASH !in a && (rest == [] || rest[0] == SLASH)
    ensures Fields(a + rest) == if rest == [] then [a] else [a] + Fields(rest[1..])
  {
    hide FirstSlash;
    FirstSlashIs(a, rest);
    if rest == [] {
      assert a + rest == a;
    } else {
      assert (a + rest)[..|a|] == a && (a + rest)[|a| + 1..] == rest[1..];
    }
  }

  /** What follows the first component is read from its slash on. */
  lemma FieldsOfFirst(c: bytes, rest: bytes)
    requires SLASH !in c && (rest == [] || rest[0] == SLASH)
    ensures Fields([SLASH] + c + rest) == [[], c] + (if rest == [] then [] else Fields(rest)[1..])
  {
    hide Fields, FirstSlash;
    assert [SLASH] + c + rest == [SLASH] + (c + rest);
    FieldsOfTail(c + rest);
    FieldsStep(c, rest);
    if rest != [] {
      assert rest == [SLASH] + rest[1..];
      FieldsOfTail(rest[1..]);
      assert ([[]] + Fields(rest[1..]))[1..] == Fields(rest[1..]);
    }
  }

  lemma SlashedNothing()
    ensures Slashed([]) == []
  {
  }

  lemma {:induction false} FieldsOfSlashed(cs: Parts, rest: bytes)
    requires AllValid(cs) && cs != [] && (rest == [] || rest[0] == SLASH)
    ensures Fields(Slashed(cs) + rest) == [[]] + cs + (if rest == [] then [] else Fields(rest)[1..])
  {
    hide Fields, Slashed;
    var tail := Slashed(cs[1..]) + rest;
    SlashedFirst(cs);
    SlashedNothing();
    if |cs| > 1 {
      SlashedStarts(cs[1..]);
    }
    assert Slashed(cs) + rest == [SLASH] + cs[0] + tail;
    FieldsOfFirst(cs[0], tail);
    if |cs| > 1 {
      FieldsOfSlashed(cs[1..], rest);
      Regroup(cs, Fields(tail), if rest == [] then [] else Fields(rest)[1..]);
    } else {
      assert tail == rest;
    }
  }

  lemma Regroup(cs: Parts, f: Parts, more: Parts)
    requires cs != [] && f == [[]] + cs[1..] + more
    ensures [[], cs[0]] + f[1..] == [[]] + cs + more
  {
    assert f[1..] == cs[1..] + more;
  }

  lemma SlashedFirst(cs: Parts)
    requires cs != []
    ensures Slashed(cs) == [SLASH] + cs[0] + Slashed(cs[1..])
  {
    var one: Parts := [cs[0]];
    assert cs == one + cs[1..];
    SlashedConcat(one, cs[1..]);
    assert one[..0] == [];
  }

  lemma FieldsOfAbs(cs: Parts)
    requires AllValid(cs) && cs != []
    ensures Fields(Abs(cs)) == [[]] + cs
  {
    FieldsOfSlashed(cs, []);
    assert Slashed(cs) + [] == Slashed(cs);
  }

  /** Canonicalising a canonical path changes nothing: the string determines the
      components. */
  lemma CanonicalIsFixed(cs: Parts)
    requires AllValid(cs)
    ensures Resolve([], Fields(Abs(cs))) == cs
  {
    if cs == [] {
      FieldsOfTail([]);
      assert [SLASH] + [] == [SLASH] && Fields([]) == [[]];
      var both: Parts := [[], []];
      assert both[1..] == [[]] && both[1..][1..] == [];
      assert Resolve([], both) == Resolve([], both[1..]) == Resolve([], both[1..][1..]);
    } else {
      FieldsOfAbs(cs);
      assert ([[]] + cs)[1..] == cs;
      ResolveValid([], cs);
    }
  }

  lemma AbsIsInjective(cs: Parts, ds: Parts)
    requires AllValid(cs) && AllValid(ds) && Abs(cs) == Abs(ds)
    ensures cs == ds
  {
    CanonicalIsFixed(cs);
    CanonicalIsFixed(ds);
  }

  /** Whatever goes in, only proper components come out. */
  lemma {:induction false} ResolvedIsValid(cs: Parts, fields: Parts)
    requires AllValid(cs) && forall i :: 0 <= i < |fields| ==> SLASH !in fields[i] && NUL !in fields[i]
    ensures AllValid(Resolve(cs, fields))
    decreases |fields|
  {
    if fields != [] {
      var c := fields[0];
      ResolvedIsValid(if c == [] || c == DOT then cs
                      else if c == DOTDOT then (if cs == [] then [] else cs[..|cs| - 1])
                      else cs + [c], fields[1..]);
    }
  }

  lemma {:induction false} FieldsAreClean(raw: bytes)
    requires NUL !in raw
    ensures forall i :: 0 <= i < |Fields(raw)| ==> SLASH !in Fields(raw)[i] && NUL !in Fields(raw)[i]
  {
    var i := FirstSlash(raw);
    if i < |raw| {
      FieldsAreClean(raw[i + 1..]);
    }
  }

  // ------------------------------------------------- what dots and slashes mean

  function Joined(fs: Parts): bytes {
    if fs == [] then [] else if |fs| == 1 then fs[0] else fs[0] + [SLASH] + Joined(fs[1..])
  }

  /** The fields are what stands between the slashes: joined they are the string, and none
      has a slash in it. */
  lemma {:induction false} FieldsJoin(raw: bytes)
    ensures Joined(Fields(raw)) == raw
    ensures forall i :: 0 <= i < |Fields(raw)| ==> SLASH !in Fields(raw)[i]
  {
    var i := FirstSlash(raw);
    if i < |raw| {
      FieldsJoin(raw[i + 1..]);
      assert raw == raw[..i] + [SLASH] + raw[i + 1..];
    }
  }

  lemma {:induction false} ResolveConcat(cs: Parts, a: Parts, b: Parts)
    ensures Resolve(cs, a + b) == Resolve(Resolve(cs, a), b)
    decreases |a|
  {
    if a == [] {
      assert a + b == b;
    } else {
      assert (a + b)[1..] == a[1..] + b;
      var c := a[0];
      ResolveConcat(if c == [] || c == DOT then cs
                    else if c == DOTDOT then (if cs == [] then [] else cs[..|cs| - 1])
                    else cs + [c], a[1..], b);
    }
  }

  /** Anywhere in a path: an empty component and a dot mean nothing, a double dot takes back
      the proper component before it and means nothing at the root, and proper components
      are kept. These rules reduce every path to one of proper components. */
  lemma PathRules(cs: Parts, a: Parts, b: Parts, c: bytes)
    ensures c == [] || c == DOT ==> Resolve(cs, a + [c] + b) == Resolve(cs, a + b)
    ensures c != [] && c != DOT && c != DOTDOT ==> Resolve(cs, a + [c, DOTDOT] + b) == Resolve(cs, a + b)
    ensures Resolve([], [DOTDOT] + b) == Resolve([], b)
    ensures AllValid(a) ==> Resolve(cs, a + b) == Resolve(cs + a, b)
  {
    var at := Resolve(cs, a);
    ResolveConcat(cs, a, b);
    ResolveConcat(cs, a, [c] + b);
    ResolveConcat(cs, a, [c, DOTDOT] + b);
    assert a + [c] + b == a + ([c] + b) && a + [c, DOTDOT] + b == a + ([c, DOTDOT] + b);
    ResolveConcat(at, [c], b);
    ResolveConcat(at, [c, DOTDOT], b);
    ResolveConcat([], [DOTDOT], b);
    ResolveOne(at, c);
    ResolveOne([], DOTDOT);
    if c != [] && c != DOT && c != DOTDOT {
      ResolveConcat(at, [c], [DOTDOT]);
      ResolveOne(at + [c], DOTDOT);
      assert [c] + [DOTDOT] == [c, DOTDOT] && (at + [c])[..|at|] == at;
    }
    if AllValid(a) {
      ResolveValid(cs, a);
    }
  }

  /** No component ends in the middle of another: prefixes of strings that end at a
      separator are prefixes of component sequences. */
  lemma PrefixIsParts(cs: Parts, ps: Parts)
    requires AllValid(cs) && AllValid(ps) && ps != [] && Slashed(ps) <= Slashed(cs)
    requires |Slashed(cs)| > |Slashed(ps)| ==> Slashed(cs)[|Slashed(ps)|] == SLASH
    ensures ps <= cs
  {
    hide Fields, Slashed;
    SlashedNothing();
    SlashedStarts(ps);
    var rest := Slashed(cs)[|Slashed(ps)|..];
    assert Slashed(cs) == Slashed(ps) + rest;
    FieldsOfAbs(cs);
    FieldsOfSlashed(ps, rest);
    StripFirst(cs, ps, if rest == [] then [] else Fields(rest)[1..]);
  }

  lemma StripFirst(cs: Parts, ps: Parts, more: Parts)
    requires [[]] + cs == [[]] + ps + more
    ensures ps <= cs
  {
    assert cs == ([[]] + cs)[1..] && ([[]] + ps + more)[1..] == ps + more;
  }

  predicate IsWithin(path: bytes, parent: bytes) {
    !(|path| < |parent| || path[..|parent|] != parent ||
      (|parent| > 1 && |path| > |parent| && path[|parent|] != SLASH))
  }

  /** The string test decides containment of the trees. */
  lemma IsWithinIsPrefix(cs: Parts, ps: Parts)
    requires AllValid(cs) && AllValid(ps)
    ensures IsWithin(Abs(cs), Abs(ps)) <==> ps <= cs
  {
    if ps == [] {
      if cs != [] {
        SlashedStarts(cs);
      }
    } else {
      LongerThanRoot(ps);
      if ps <= cs {
        assert cs == ps + cs[|ps|..];
        SlashedConcat(ps, cs[|ps|..]);
        if |cs| > |ps| {
          SlashedStarts(cs[|ps|..]);
        }
      } else if IsWithin(Abs(cs), Abs(ps)) {
        PrefixIsParts(cs, ps);
      }
    }
  }

  lemma LongerThanRoot(ps: Parts)
    requires AllValid(ps) && ps != []
    ensures |Slashed(ps)| > 1
  {
    assert ValidName(ps[|ps| - 1]);
  }

  function RemovePrefix(path: bytes, prefix: bytes): bytes
    requires IsWithin(path, prefix)
  {
    if |prefix| <= 1 then path
    else if |path| == |prefix| then [SLASH]
    else path[|prefix|..]
  }

  lemma RemovePrefixIsRest(cs: Parts, ps: Parts)
    requires AllValid(cs) && AllValid(ps) && ps <= cs
    ensures IsWithin(Abs(cs), Abs(ps)) && RemovePrefix(Abs(cs), Abs(ps)) == Abs(cs[|ps|..])
  {
    IsWithinIsPrefix(cs, ps);
    assert cs == ps + cs[|ps|..];
    SlashedConcat(ps, cs[|ps|..]);
    if ps != [] {
      LongerThanRoot(ps);
      if |cs| > |ps| {
        SlashedStarts(cs[|ps|..]);
      }
    }
  }

  /** Cutting at the last slash, but keeping a leading one, drops the last component. */
  lemma ParentString(cs: Parts)
    requires AllValid(cs) && cs != []
    ensures LastSlash(Abs(cs)).Some?
    ensures var slash := LastSlash(Abs(cs)).value;
      Abs(cs)[..if slash < 1 then 1 else slash] == Abs(cs[..|cs| - 1])
  {
    var n := |cs| - 1;
    LastSlashIs(Slashed(cs[..n]), cs[n]);
    SlashedStarts(cs);
    if n > 0 {
      SlashedStarts(cs[..n]);
      assert Abs(cs)[..|Slashed(cs[..n])|] == Slashed(cs[..n]);
    } else {
      assert cs[..n] == [] && Slashed([]) == [];
      assert Abs(cs)[..1] == [SLASH];
    }
  }

  ghost predicate IsCanonical(path: bytes) {
    exists cs :: AllValid(cs) && Abs(cs) == path
  }

  lemma TrailingSlash(path: bytes)
    requires |path| > 1 && path[|path| - 1] == SLASH
    ensures !IsCanonical(path)
  {
    forall cs | AllValid(cs) ensures Abs(cs) != path {
      if cs != [] {
        LastIsNoSlash(cs);
      }
    }
  }

  lemma LastIsNoSlash(cs: Parts)
    requires AllValid(cs) && cs != []
    ensures Abs(cs) != [] && Abs(cs)[|Abs(cs)| - 1] != SLASH
  {
    var last := cs[|cs| - 1];
    assert ValidName(last) && last != [] && last[|last| - 1] in last;
  }

  // -------------------------------------------------------------- the class

  class CanonPath {
    var path: bytes
    ghost var parts: Parts

    ghost predicate Valid()
      reads this
    {
      AllValid(parts) && path == Abs(parts)
    }

    /** From any string without NUL bytes. */
    constructor (raw: bytes)
      requires NUL !in raw
      ensures Valid() && parts == Resolve([], Fields([SLASH] + raw))
    {
      var result := AbsPathPure([SLASH] + raw);
      path := result;
      parts := Resolve([], Fields([SLASH] + raw));
    }

    predicate IsRoot()
      reads this
    {
      |path| <= 1
    }

    method Pop()
      requires Valid() && !IsRoot()
      modifies this
      ensures Valid() && parts == old(parts)[..|old(parts)| - 1]
    {
      ParentString(parts);
      var slash := LastSlash(path).value;
      path := path[..if slash < 1 then 1 else slash];
      parts := parts[..|parts| - 1];
    }

    /** Whether the result is canonical depends on one thing the source does not check:
        that the component is not empty. An empty one changes nothing at the root and
        leaves a trailing slash anywhere else. */
    method Push(c: bytes)
      requires Valid() && SLASH !in c && c != DOT && c != DOTDOT && NUL !in c
      modifies this
      ensures path == Abs(old(parts)) + (if old(parts) == [] then [] else [SLASH]) + c
      ensures parts == if c == [] then old(parts) else old(parts) + [c]
      ensures IsCanonical(path) <==> c != [] || old(parts) == []
      ensures Valid() <==> c != [] || old(parts) == []
    {
      if parts != [] {
        LongerThanRoot(parts);
      }
      SlashedOne(parts, c);
      if c == [] && parts != [] {
        TrailingSlash(path + [SLASH]);
      }
      if !IsRoot() {
        path := path + [SLASH];
      }
      path := path + c;
      if c != [] {
        parts := parts + [c];
      }
      assert AllValid(parts) && (c != [] || old(parts) == [] ==> path == Abs(parts));
    }

    method Extend(x: CanonPath)
      requires Valid() && x.Valid()
      modifies this
      ensures Valid() && parts == old(parts) + old(x.parts)
    {
      if parts != [] {
        LongerThanRoot(parts);
      }
      if x.parts != [] {
        LongerThanRoot(x.parts);
        SlashedStarts(x.parts);
      }
      SlashedConcat(parts, x.parts);
      ghost var more := parts + x.parts;
      if x.IsRoot() {
        return;
      }
      if IsRoot() {
        path := path + x.path[1..];
      } else {
        path := path + x.path;
      }
      parts := more;
    }

    method Parent() returns (p: Option<bytes>)
      requires Valid()
      ensures p == if parts == [] then None else Some(Abs(parts[..|parts| - 1]))
    {
      if parts != [] {
        LongerThanRoot(parts);
      }
      if IsRoot() {
        return None;
      }
      ParentString(parts);
      var slash := LastSlash(path).value;
      return Some(path[..if slash < 1 then 1 else slash]);
    }
  }

  /** canonPathInner over Unix paths, its hook doing nothing. */
  method AbsPathPure(raw: bytes) returns (path: bytes)
    requires NUL !in raw
    ensures AllValid(Resolve([], Fields(raw))) && path == Abs(Resolve([], Fields(raw)))
  {
    hide Fields, Resolve, LastSlash;
    var remaining, result := raw, [];
    ghost var parts: Parts := [];
    assert Slashed([]) == [];
    while remaining != []
      invariant NUL !in remaining && AllValid(parts) && result == Slashed(parts)
      invariant Resolve(parts, Fields(remaining)) == Resolve([], Fields(raw))
      decreases |remaining|
    {
      if remaining[0] == SLASH {
        SkipSlash(parts, remaining);
        remaining := remaining[1..];
        continue;
      }
      var i := FirstSlash(remaining);
      var next := remaining[..i];
      TakeField(parts, remaining);
      ResolveOne(parts, next);
      if next == DOT {
        remaining := remaining[1..];
      } else if next == DOTDOT {
        if result != [] {
          LastSlashIs(Slashed(parts[..|parts| - 1]), parts[|parts| - 1]);
          result := result[..LastSlash(result).value];
          parts := parts[..|parts| - 1];
        }
        remaining := remaining[2..];
      } else {
        SlashedOne(parts, next);
        result := result + [SLASH] + next;
        parts := parts + [next];
        remaining := remaining[i..];
      }
    }
    NothingLeft(parts);
    if parts != [] {
      LongerThanRoot(parts);
    }
    path := if result == [] then [SLASH] else result;
  }

  lemma ResolveOne(cs: Parts, c: bytes)
    ensures Resolve(cs, [c]) ==
      if c == [] || c == DOT then cs
      else if c == DOTDOT then (if cs == [] then [] else cs[..|cs| - 1])
      else cs + [c]
  {
    assert [c][1..] == [];
  }

  lemma NothingLeft(cs: Parts)
    ensures Resolve(cs, Fields([])) == cs
  {
    ResolveOne(cs, []);
  }

  lemma SkipSlash(cs: Parts, s: bytes)
    requires s != [] && s[0] == SLASH
    ensures Resolve(cs, Fields(s)) == Resolve(cs, Fields(s[1..]))
  {
    assert s == [SLASH] + s[1..];
    FieldsOfTail(s[1..]);
    assert ([[]] + Fields(s[1..]))[1..] == Fields(s[1..]);
  }

  /** Taking the first field leaves what follows it, its slash included. */
  lemma TakeField(cs: Parts, s: bytes)
    requires s != [] && s[0] != SLASH
    ensures var i := FirstSlash(s);
      Resolve(cs, Fields(s)) == Resolve(Resolve(cs, [s[..i]]), Fields(s[i..]))
  {
    var i := FirstSlash(s);
    var ds := Resolve(cs, [s[..i]]);
    if i == |s| {
      assert s[..i] == s && s[i..] == [];
      assert Fields([]) == [[]] && Resolve(ds, [[]]) == ds;
    } else {
      SkipSlash(ds, s[i..]);
      assert s[i..][1..] == s[i + 1..];
      assert ([s[..i]] + Fields(s[i + 1..]))[1..] == Fields(s[i + 1..]);
      assert [s[..i]][1..] == [];
    }
  }
}
