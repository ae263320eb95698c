/**
 Request targets: where the authority and the path lie in the raw bytes, how a target is
 stored on a request header, and what is sent on the wire afterwards.

 The URI library and UTF-8 decoding are arguments. A URI that is accepted gives its
 path-and-query back unchanged, the empty one as "/".
 */
module RequestTarget {
  import opened Basics

  type Bytes = seq<Byte>

  const SLASH: Byte := 0x2F
  const QUERY: Byte := 0x3F
  const HASH: Byte := 0x23
  const COLON: Byte := 0x3A
  const STAR: Byte := 0x2A
  const BACKSLASH: Byte := 0x5C
  const MARK: Bytes := [COLON, SLASH, SLASH]

  // ----- Scanning -----

  /** Where a byte of the set occurs first, or the length. */
  function Until(s: Bytes, stop: set<Byte>): (n: nat)
    ensures n <= |s| && (n < |s| ==> s[n] in stop)
    ensures forall k :: 0 <= k < n ==> s[k] !in stop
  {
    if s == [] || s[0] in stop then 0 else 1 + Until(s[1..], stop)
  }

  lemma {:induction false} UntilIsUnique(s: Bytes, stop: set<Byte>, n: nat)
    requires n <= |s| && (n < |s| ==> s[n] in stop)
    requires forall k :: 0 <= k < n ==> s[k] !in stop
    ensures n == Until(s, stop)
  {
  }

  function Cut(target: Bytes): Bytes { target[..Until(target, {HASH})] }

  // ----- Schemes -----

  predicate IsAlpha(b: Byte) { 0x41 <= b <= 0x5A || 0x61 <= b <= 0x7A }

  predicate IsDigit(b: Byte) { 0x30 <= b <= 0x39 }

  /** RFC 3986 section 3.1. */
  predicate SchemeByte(k: nat, b: Byte) {
    if k == 0 then IsAlpha(b) else IsAlpha(b) || IsDigit(b) || b == 0x2B || b == 0x2D || b == 0x2E
  }

  predicate SchemeBytes(s: Bytes) { forall k :: 0 <= k < |s| ==> SchemeByte(k, s[k]) }

  function Lower(b: Byte): Byte { if 0x41 <= b <= 0x5A then b + 0x20 else b }

  predicate SameIgnoringCase(a: Bytes, b: Bytes) {
    |a| == |b| && forall k :: 0 <= k < |a| ==> Lower(a[k]) == Lower(b[k])
  }

  const HTTP: Bytes := [0x68, 0x74, 0x74, 0x70]
  const WS: Bytes := [0x77, 0x73]

  predicate IsHttpFamily(scheme: Bytes) {
    || SameIgnoringCase(scheme, HTTP) || SameIgnoringCase(scheme, HTTP + [0x73])
    || SameIgnoringCase(scheme, WS) || SameIgnoringCase(scheme, WS + [0x73])
  }

  // ----- Classification -----

  datatype Classification =
    | NoAuthority
    | Absolute(scheme: Bytes, authority: Bytes, pathAndQuery: Bytes)
    | Ambiguous

  function AuthorityOf(c: Classification): Option<Bytes> {
    if c.Absolute? then Some(c.authority) else None
  }

  function ClassifyAuthority(scheme: Bytes, family: bool, rest: Bytes): Classification {
    var end := Until(rest, {SLASH, QUERY, HASH});
    if family && (end == 0 || BACKSLASH in rest[..end]) then Ambiguous
    else Absolute(scheme, rest[..end], rest[end..])
  }

  /** `rest` starts with the colon after the scheme. */
  function ClassifyScheme(scheme: Bytes, family: bool, rest: Bytes): Classification {
    var marked := MARK <= rest;
    if scheme == [] || !SchemeBytes(scheme) then if marked then Ambiguous else NoAuthority
    else if !marked then if family then Ambiguous else NoAuthority
    else ClassifyAuthority(scheme, family, rest[3..])
  }

  function Classify(target: Bytes): Classification {
    var colon := Until(target, {COLON});
    if (target != [] && target[0] == SLASH) || colon == |target| then NoAuthority
    else ClassifyScheme(target[..colon], IsHttpFamily(target[..colon]), target[colon..])
  }

  // ----- Absolute form, without the scan -----

  predicate Delimiter(b: Byte) { b == SLASH || b == QUERY || b == HASH }

  ghost predicate ArePieces(family: bool, rest: Bytes, authority: Bytes, path: Bytes) {
    && rest == authority + path
    && (forall b <- authority :: !Delimiter(b))
    && (path == [] || Delimiter(path[0]))
    && (family ==> authority != [] && BACKSLASH !in authority)
  }

  /** The pieces of an absolute-form target: RFC 9112 section 3.2.2. */
  ghost predicate IsAbsoluteForm(target: Bytes, scheme: Bytes, authority: Bytes, path: Bytes) {
    && target == scheme + MARK + (authority + path)
    && scheme != [] && SchemeBytes(scheme)
    && ArePieces(IsHttpFamily(scheme), authority + path, authority, path)
  }

  lemma {:induction false} SchemeEndsAtColon(scheme: Bytes, rest: Bytes)
    requires SchemeBytes(scheme)
    ensures Until(scheme + [COLON] + rest, {COLON}) == |scheme|
  {
    var target := scheme + [COLON] + rest;
    assert forall k :: 0 <= k < |scheme| ==> target[k] == scheme[k] && SchemeByte(k, scheme[k]);
    UntilIsUnique(target, {COLON}, |scheme|);
  }

  lemma {:induction false} AuthorityEndsAtDelimiter(authority: Bytes, path: Bytes)
    requires (forall b <- authority :: !Delimiter(b)) && (path == [] || Delimiter(path[0]))
    ensures Until(authority + path, {SLASH, QUERY, HASH}) == |authority|
  {
    var rest := authority + path;
    assert forall k :: 0 <= k < |authority| ==> rest[k] == authority[k] && rest[k] in authority;
    UntilIsUnique(rest, {SLASH, QUERY, HASH}, |authority|);
  }

  lemma {:induction false} PiecesIff(scheme: Bytes, family: bool, rest: Bytes, authority: Bytes, path: Bytes)
    ensures ClassifyAuthority(scheme, family, rest) == Absolute(scheme, authority, path) <==>
            ArePieces(family, rest, authority, path)
  {
    var end := Until(rest, {SLASH, QUERY, HASH});
    assert rest == rest[..end] + rest[end..];
    if ArePieces(family, rest, authority, path) {
      AuthorityEndsAtDelimiter(authority, path);
      assert rest[..end] == authority && rest[end..] == path;
    }
  }

  lemma {:induction false} AbsoluteFormIsClassified(target: Bytes, scheme: Bytes, authority: Bytes, path: Bytes)
    requires IsAbsoluteForm(target, scheme, authority, path)
    ensures Classify(target) == Absolute(scheme, authority, path)
  {
    var rest := authority + path;
    assert target == scheme + [COLON] + ([SLASH, SLASH] + rest);
    SchemeEndsAtColon(scheme, [SLASH, SLASH] + rest);
    assert target[0] == scheme[0] && SchemeByte(0, scheme[0]);
    assert target[..|scheme|] == scheme && target[|scheme|..] == MARK + rest;
    assert (MARK + rest)[3..] == rest;
    PiecesIff(scheme, IsHttpFamily(scheme), rest, authority, path);
  }

  lemma {:induction false} ClassifiedIsAbsoluteForm(target: Bytes)
    requires Classify(target).Absolute?
    ensures
      var c := Classify(target);
      IsAbsoluteForm(target, c.scheme, c.authority, c.pathAndQuery)
  {
    var c := Classify(target);
    var colon := Until(target, {COLON});
    var rest := target[colon..][3..];
    assert target[colon..] == MARK + rest;
    assert target == target[..colon] + MARK + rest;
    PiecesIff(c.scheme, IsHttpFamily(c.scheme), rest, c.authority, c.pathAndQuery);
  }

  /** A target is reported as absolute with exactly the pieces it is made of. */
  lemma {:induction false} AbsoluteIff(target: Bytes, scheme: Bytes, authority: Bytes, path: Bytes)
    ensures Classify(target) == Absolute(scheme, authority, path) <==> IsAbsoluteForm(target, scheme, authority, path)
  {
    if Classify(target).Absolute? { ClassifiedIsAbsoluteForm(target); }
    if IsAbsoluteForm(target, scheme, authority, path) { AbsoluteFormIsClassified(target, scheme, authority, path); }
  }

  // ----- Ambiguous targets, without the scan -----

  /** What follows the two slashes names no authority, or hides a backslash in it. */
  ghost predicate ObscureAuthority(rest: Bytes) {
    exists authority, path ::
      && rest == authority + path && (forall b <- authority :: !Delimiter(b)) && (path == [] || Delimiter(path[0]))
      && (authority == [] || BACKSLASH in authority)
  }

  /** No scheme, although two slashes follow; or one of the http family without them or a plain authority. */
  ghost predicate AmbiguousPair(scheme: Bytes, rest: Bytes) {
    if scheme == [] || !SchemeBytes(scheme) then [SLASH, SLASH] <= rest
    else IsHttpFamily(scheme) && ([SLASH, SLASH] <= rest ==> ObscureAuthority(rest[2..]))
  }

  /** Not a path, and such a pair around its first colon. */
  ghost predicate IsAmbiguous(target: Bytes) {
    && (target != [] ==> target[0] != SLASH)
    && exists scheme, rest ::
         target == scheme + [COLON] + rest && COLON !in scheme && AmbiguousPair(scheme, rest)
  }

  lemma {:induction false} ObscureIff(scheme: Bytes, rest: Bytes)
    ensures ClassifyAuthority(scheme, true, rest).Ambiguous? <==> ObscureAuthority(rest)
  {
    var end := Until(rest, {SLASH, QUERY, HASH});
    assert rest == rest[..end] + rest[end..];
    assert forall b <- rest[..end] :: !Delimiter(b);
    if ObscureAuthority(rest) {
      var authority, path :|
        && rest == authority + path && (forall b <- authority :: !Delimiter(b)) && (path == [] || Delimiter(path[0]))
        && (authority == [] || BACKSLASH in authority);
      AuthorityEndsAtDelimiter(authority, path);
      assert rest[..end] == authority;
    }
  }

  lemma {:induction false} AmbiguousSchemeIff(scheme: Bytes, rest: Bytes)
    ensures ClassifyScheme(scheme, IsHttpFamily(scheme), [COLON] + rest).Ambiguous? <==> AmbiguousPair(scheme, rest)
  {
    var all := [COLON] + rest;
    assert MARK <= all <==> [SLASH, SLASH] <= rest by {
      if [SLASH, SLASH] <= rest { assert all[1] == rest[0] && all[2] == rest[1]; }
      if MARK <= all { assert rest[0] == all[1] == MARK[1] && rest[1] == all[2] == MARK[2]; }
    }
    if MARK <= all {
      assert all[3..] == rest[2..];
      ObscureIff(scheme, rest[2..]);
    }
  }

  lemma {:induction false} FirstColon(target: Bytes, scheme: Bytes, rest: Bytes)
    requires target == scheme + [COLON] + rest && COLON !in scheme
    ensures Until(target, {COLON}) == |scheme| && target[..|scheme|] == scheme && target[|scheme|..] == [COLON] + rest
  {
    assert forall k :: 0 <= k < |scheme| ==> target[k] == scheme[k] && scheme[k] in scheme;
    UntilIsUnique(target, {COLON}, |scheme|);
  }

  /** A target is called ambiguous exactly when it is. */
  lemma {:induction false} AmbiguousIff(target: Bytes)
    ensures Classify(target).Ambiguous? <==> IsAmbiguous(target)
  {
    var colon := Until(target, {COLON});
    if colon < |target| {
      var scheme, rest := target[..colon], target[colon + 1..];
      assert target == scheme + [COLON] + rest && COLON !in scheme;
      FirstColon(target, scheme, rest);
      AmbiguousSchemeIff(scheme, rest);
      if IsAmbiguous(target) {
        var other, tail :| target == other + [COLON] + tail && COLON !in other && AmbiguousPair(other, tail);
        FirstColon(target, other, tail);
        assert other == scheme && tail == rest;
      }
    } else {
      assert COLON !in target;
    }
  }

  // ----- Fragments -----

  function CutPath(c: Classification): Classification {
    if c.Absolute? then c.(pathAndQuery := Cut(c.pathAndQuery)) else c
  }

  lemma {:induction false} CutSkips(s: Bytes, n: nat)
    requires n <= Until(s, {HASH})
    ensures Cut(s[n..]) == Cut(s)[n..]
  {
    var h := Until(s, {HASH});
    assert forall k :: 0 <= k < h - n ==> s[n..][k] == s[n + k];
    UntilIsUnique(s[n..], {HASH}, h - n);
  }

  lemma {:induction false} AuthorityIgnoresFragment(scheme: Bytes, family: bool, rest: Bytes)
    ensures ClassifyAuthority(scheme, family, Cut(rest)) == CutPath(ClassifyAuthority(scheme, family, rest))
  {
    var stop := {SLASH, QUERY, HASH};
    var end, h := Until(rest, stop), Until(rest, {HASH});
    assert end <= h by { if h < |rest| { assert rest[h] in stop; } }
    assert forall k :: 0 <= k < end ==> Cut(rest)[k] == rest[k];
    UntilIsUnique(Cut(rest), stop, end);
    assert Cut(rest)[..end] == rest[..end];
    CutSkips(rest, end);
  }

  lemma {:induction false} SchemeIgnoresFragment(scheme: Bytes, family: bool, rest: Bytes)
    ensures ClassifyScheme(scheme, family, Cut(rest)) == CutPath(ClassifyScheme(scheme, family, rest))
  {
    if MARK <= rest {
      assert rest[0] == COLON && rest[1] == SLASH && rest[2] == SLASH;
      assert Until(rest, {HASH}) >= 3;
      assert forall k :: 0 <= k < 3 ==> Cut(rest)[k] == rest[k];
      CutSkips(rest, 3);
      AuthorityIgnoresFragment(scheme, family, rest[3..]);
    } else {
      assert Cut(rest) <= rest;
    }
  }

  /** Dropping the fragment shortens the path, unless the colon was part of the fragment. */
  lemma {:induction false} ClassifyCut(target: Bytes)
    ensures Classify(Cut(target)) ==
            if Until(target, {HASH}) <= Until(target, {COLON}) then NoAuthority else CutPath(Classify(target))
  {
    var h, colon := Until(target, {HASH}), Until(target, {COLON});
    if h <= colon {
      assert forall k :: 0 <= k < h ==> Cut(target)[k] == target[k];
      UntilIsUnique(Cut(target), {COLON}, h);
    } else {
      assert forall k :: 0 <= k <= colon ==> Cut(target)[k] == target[k];
      UntilIsUnique(Cut(target), {COLON}, colon);
      assert Cut(target)[..colon] == target[..colon];
      CutSkips(target, colon);
      SchemeIgnoresFragment(target[..colon], IsHttpFamily(target[..colon]), target[colon..]);
    }
  }

  /** The authority reported for a target is the one reported for it without its fragment. */
  lemma {:induction false} FragmentKeepsAuthority(target: Bytes)
    ensures AuthorityOf(Classify(Cut(target))) == AuthorityOf(Classify(target))
  {
    ClassifyCut(target);
    var h, colon := Until(target, {HASH}), Until(target, {COLON});
    if h < colon {
      assert target[..colon][h] == HASH && !SchemeByte(h, HASH);
      assert !SchemeBytes(target[..colon]);
    }
  }

  // ----- Storing a target -----

  /** How the bytes for the wire are recovered. */
  datatype RawTarget = FromUri | Verbatim(bytes: Bytes) | Lossy(bytes: Bytes)

  /** A URI is its path-and-query here. */
  datatype Parsed = Parsed(uri: Bytes, raw: RawTarget)

  /** What is taken from libraries: path-and-query validation, and UTF-8 with lossy replacement. */
  datatype Library = Library(accepts: Bytes -> bool, isUtf8: Bytes -> bool, lossy: Bytes -> Bytes)

  const ROOT: Bytes := [SLASH]

  function Render(uri: Bytes): Bytes { if uri == [] then ROOT else uri }

  function RawPath(p: Parsed): Bytes { if p.raw.FromUri? then Render(p.uri) else p.raw.bytes }

  /** Origin form, asterisk form, and what only a fragment leaves behind. */
  predicate RoundTrips(target: Bytes) {
    target == [] || target[0] == SLASH || target[0] == QUERY || target == [STAR]
  }

  function Readable(lib: Library, s: Bytes): Bytes { if lib.isUtf8(s) then s else lib.lossy(s) }

  function Accepted(lib: Library, uri: Bytes, raw: RawTarget): Option<Parsed> {
    if lib.accepts(uri) then Some(Parsed(uri, raw)) else None
  }

  /** An absolute-form target contributes its path, anchored to the root. */
  function UriPath(lib: Library, c: Classification): Bytes {
    if c.Absolute? then
      var path := Readable(lib, c.pathAndQuery);
      if path == [] || path[0] == SLASH then path else ROOT + path
    else []
  }

  function ParseTarget(lib: Library, received: Bytes): Option<Parsed> {
    var target := Cut(received);
    if RoundTrips(target) then
      Accepted(lib, Readable(lib, target), if lib.isUtf8(target) then FromUri else Lossy(target))
    else
      var uri := UriPath(lib, Classify(target));
      var raw := if lib.isUtf8(target) then Verbatim(target) else Lossy(target);
      if uri == [] then Some(Parsed(ROOT, raw)) else Accepted(lib, uri, raw)
  }

  /** What goes out on the wire is the target as received, less its fragment, and "/" for nothing. */
  lemma {:induction false} WireTargetIsTheTargetCut(lib: Library, target: Bytes)
    requires lib.isUtf8([]) && ParseTarget(lib, target).Some?
    ensures RawPath(ParseTarget(lib, target).value) == if Cut(target) == [] then ROOT else Cut(target)
    ensures HASH !in Cut(target) && Cut(target) <= target
  {
  }

  /**
   A target is refused exactly when the library refuses the path to be stored: the target
   itself if it is a path, or the path after the authority of an absolute form.
   */
  lemma {:induction false} RefusedIff(lib: Library, received: Bytes)
    ensures
      var target := Cut(received);
      ParseTarget(lib, received).None? <==>
        || (RoundTrips(target) && !lib.accepts(Readable(lib, target)))
        || exists scheme, authority, path ::
             && IsAbsoluteForm(target, scheme, authority, path) && Readable(lib, path) != []
             && !lib.accepts(Anchored(Readable(lib, path)))
  {
    var target := Cut(received);
    var c := Classify(target);
    if c.Absolute? {
      AbsoluteIff(target, c.scheme, c.authority, c.pathAndQuery);
      SchemeIsNoPath(target, c.scheme, c.authority + c.pathAndQuery);
    }
    forall scheme, authority, path | IsAbsoluteForm(target, scheme, authority, path)
      ensures c == Absolute(scheme, authority, path)
    {
      AbsoluteIff(target, scheme, authority, path);
    }
  }

  lemma {:induction false} SchemeIsNoPath(target: Bytes, scheme: Bytes, rest: Bytes)
    requires target == scheme + MARK + rest && scheme != [] && SchemeBytes(scheme)
    ensures !RoundTrips(target)
  {
    assert target[0] == scheme[0] && SchemeByte(0, scheme[0]);
    assert |target| >= 3;
  }

  lemma {:induction false} CutAbsolute(target: Bytes)
    requires Classify(target).Absolute?
    ensures
      var c := Classify(target);
      && Classify(Cut(target)) == CutPath(c)
      && Cut(target) == c.scheme + MARK + (c.authority + Cut(c.pathAndQuery))
      && !RoundTrips(Cut(target))
  {
    var c := Classify(target);
    FragmentKeepsAuthority(target);
    ClassifyCut(target);
    ClassifiedIsAbsoluteForm(Cut(target));
    SchemeIsNoPath(Cut(target), c.scheme, c.authority + Cut(c.pathAndQuery));
  }

  /**
   For an absolute-form target the path stored is the one that follows the authority of the
   target as received, anchored to the root: scheme, mark, authority and path rebuild what
   is sent.
   */
  lemma {:induction false} StoredPathFollowsTheAuthority(lib: Library, target: Bytes)
    requires ParseTarget(lib, target).Some? && Classify(target).Absolute?
    ensures
      var c := Classify(target);
      var path := Cut(c.pathAndQuery);
      var p := ParseTarget(lib, target).value;
      && RawPath(p) == c.scheme + MARK + (c.authority + path)
      && p.uri == Anchored(Readable(lib, path))
  {
    CutAbsolute(target);
  }

  /**
   What is stored of the other targets: a path, a query or an asterisk is stored as it is, less its
   fragment; of anything else only the root.
   */
  lemma {:induction false} OtherTargetsAreStoredAsTheyAre(lib: Library, target: Bytes)
    requires ParseTarget(lib, target).Some? && !Classify(Cut(target)).Absolute?
    ensures
      var path := Cut(target);
      var asItIs := path == [] || path[0] == SLASH || path[0] == QUERY || path == [STAR];
      ParseTarget(lib, target).value.uri == if asItIs then Readable(lib, path) else ROOT
  {
  }

  function Anchored(path: Bytes): Bytes { if path != [] && path[0] == SLASH then path else ROOT + path }

  // ----- The scans themselves -----

  method RawTargetAuthority(target: Bytes) returns (c: Classification)
    ensures c == Classify(target)
  {
    if target != [] && target[0] == SLASH { return NoAuthority; }
    var validScheme, colon := true, 0;
    while colon < |target| && target[colon] != COLON
      invariant colon <= |target| && forall k :: 0 <= k < colon ==> target[k] != COLON
      invariant validScheme == SchemeBytes(target[..colon])
    {
      assert target[..colon + 1] == target[..colon] + [target[colon]];
      validScheme := validScheme && SchemeByte(colon, target[colon]);
      colon := colon + 1;
    }
    UntilIsUnique(target, {COLON}, colon);
    if colon == |target| { return NoAuthority; }
    var scheme, rest := target[..colon], target[colon..];
    var marked := MARK <= rest;
    if scheme == [] || !validScheme { return if marked then Ambiguous else NoAuthority; }
    var family := IsHttpFamily(scheme);
    if !marked { return if family then Ambiguous else NoAuthority; }
    c := ScanAuthority(scheme, family, rest[3..]);
  }

  method ScanAuthority(scheme: Bytes, family: bool, rest: Bytes) returns (c: Classification)
    ensures c == ClassifyAuthority(scheme, family, rest)
  {
    var stop := {SLASH, QUERY, HASH};
    ghost var boundary := Until(rest, stop);
    var end := 0;
    while end < |rest| && rest[end] !in stop
      invariant end <= boundary && (family ==> BACKSLASH !in rest[..end])
    {
      if family && rest[end] == BACKSLASH {
        assert rest[..boundary][end] == BACKSLASH;
        return Ambiguous;
      }
      assert rest[..end + 1] == rest[..end] + [rest[end]];
      end := end + 1;
    }
    if family && end == 0 { return Ambiguous; }
    c := Absolute(scheme, rest[..end], rest[end..]);
  }

  class RequestHeader {
    const lib: Library
    var uri: Bytes
    var raw: RawTarget

    constructor (lib: Library)
      ensures this.lib == lib && uri == ROOT && raw == FromUri
    {
      this.lib := lib;
      uri, raw := ROOT, FromUri;
    }

    ghost function View(): Parsed
      reads this
    {
      Parsed(uri, raw)
    }

    /** A rejected target leaves the stored one intact. */
    method SetRawPath(received: Bytes) returns (ok: bool)
      modifies this
      ensures ok == ParseTarget(lib, received).Some?
      ensures View() == if ok then ParseTarget(lib, received).value else old(View())
    {
      var end := 0;
      while end < |received| && received[end] != HASH
        invariant end <= |received| && forall k :: 0 <= k < end ==> received[k] != HASH
      {
        end := end + 1;
      }
      UntilIsUnique(received, {HASH}, end);
      var target := received[..end];
      var utf8 := lib.isUtf8(target);
      if RoundTrips(target) {
        var readable := if utf8 then target else lib.lossy(target);
        ok := lib.accepts(readable);
        if ok { uri, raw := readable, if utf8 then FromUri else Lossy(target); }
        return;
      }
      var c := RawTargetAuthority(target);
      var path := UriPath(lib, c);
      ok := path == [] || lib.accepts(path);
      if ok { uri, raw := if path == [] then ROOT else path, if utf8 then Verbatim(target) else Lossy(target); }
    }
  }
}
