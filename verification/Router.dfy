/** Resolving comms:// addresses to registered mailboxes. */
module Router {
  import opened Addresses
  import opened Outcomes
  import opened Text

  datatype Target = Target(mailbox: string, surface: Option<string>)
  datatype AddressError = BadScheme | EmptyName | UnknownMailbox

  /** The name is the whole path, or ends at one of its dots. */
  predicate IsDotPrefix(name: string, path: string) {
    name == path || (|name| < |path| && path[..|name|] == name && path[|name|] == '.')
  }

  /** The name is registered, is a dot-prefix of the path, and no longer one is registered. */
  ghost predicate IsLongest(name: string, path: string, known: seq<string>) {
    && name in known && IsDotPrefix(name, path)
    && forall other :: other in known && IsDotPrefix(other, path) ==> |other| <= |name|
  }

  /** What resolving an address must answer. */
  ghost predicate Resolves(known: seq<string>, address: string, r: Result<Target, AddressError>) {
    if !(SCHEME <= address) then r == Err(BadScheme)
    else
      var path := address[|SCHEME|..];
      if path == "" then r == Err(EmptyName)
      else match r
        case Ok(Target(mailbox, surface)) =>
          && IsLongest(mailbox, path, known)
          && (if surface.Some? then mailbox + "." + surface.value == path else mailbox == path)
        case Err(e) =>
          e == UnknownMailbox && forall name :: name in known ==> !IsDotPrefix(name, path)
  }

  /** The segments before a cut form a dot-prefix, and those after it the rest of the path. */
  lemma CutRejoins(path: string, cut: nat)
    requires 0 < cut < |Split(path, '.')|
    ensures
      var segments := Split(path, '.');
      Join(segments[..cut], ".") + "." + Join(segments[cut..], ".") == path
  {
    var segments := Split(path, '.');
    JoinSplit(path, '.');
    assert segments[..cut] + segments[cut..] == segments;
    JoinAppend(segments[..cut], segments[cut..], ".");
  }

  /** Every proper dot-prefix is the join of the segments before some cut. */
  lemma PrefixIsCut(name: string, path: string) returns (cut: nat)
    requires IsDotPrefix(name, path) && name != path
    ensures 0 < cut < |Split(path, '.')| && name == Join(Split(path, '.')[..cut], ".")
  {
    var rest := path[|name| + 1..];
    assert path == name + "." + rest;
    SplitAppend(name, rest, '.');
    cut := |Split(name, '.')|;
    assert Split(path, '.')[..cut] == Split(name, '.');
    JoinSplit(name, '.');
  }

  lemma {:induction false} LaterCutsAreLonger(segments: seq<string>, a: nat, b: nat)
    requires 0 < a < b <= |segments|
    ensures |Join(segments[..a], ".")| < |Join(segments[..b], ".")|
  {
    assert segments[..b] == segments[..a] + segments[a..b];
    JoinAppend(segments[..a], segments[a..b], ".");
  }

  /** The downward search over the segments of the path. */
  method ResolveWithSurface(known: seq<string>, address: string) returns (r: Result<Target, AddressError>)
    ensures Resolves(known, address, r)
  {
    if !(SCHEME <= address) { return Err(BadScheme); }
    var path := address[|SCHEME|..];
    if path == "" { return Err(EmptyName); }
    if path in known { return Ok(Target(path, None)); }
    var segments := Split(path, '.');
    var cut := |segments| - 1;
    while cut > 0
      invariant 0 <= cut < |segments|
      invariant forall c :: cut < c < |segments| ==> Join(segments[..c], ".") !in known
    {
      var candidate := Join(segments[..cut], ".");
      if candidate in known {
        CutRejoins(path, cut);
        forall other | other in known && IsDotPrefix(other, path) ensures |other| <= |candidate| {
          var c := PrefixIsCut(other, path);
          if c < cut { LaterCutsAreLonger(segments, c, cut); }
        }
        return Ok(Target(candidate, Some(Join(segments[cut..], "."))));
      }
      cut := cut - 1;
    }
    forall name | name in known ensures !IsDotPrefix(name, path) {
      if IsDotPrefix(name, path) { var c := PrefixIsCut(name, path); }
    }
    r := Err(UnknownMailbox);
  }

  /** The answer is determined by the registered names and the address. */
  lemma ResolvesOnce(known: seq<string>, address: string, r1: Result<Target, AddressError>, r2: Result<Target, AddressError>)
    requires Resolves(known, address, r1) && Resolves(known, address, r2)
    ensures r1 == r2
  {
    if r1.Ok? && r2.Ok? {
      var path := address[|SCHEME|..];
      var m := r1.value.mailbox;
      assert m == r2.value.mailbox == path[..|m|];
      if r1.value.surface.Some? {
        assert path[|m| + 1..] == r1.value.surface.value;
        assert r2.value.surface.Some? ==> path[|m| + 1..] == r2.value.surface.value;
      }
    }
  }

  /** A whole name resolves to its own mailbox exactly when it is registered. */
  lemma WholePathFirst(known: seq<string>, name: string, r: Result<Target, AddressError>)
    requires name != "" && Resolves(known, SCHEME + name, r)
    ensures r == Ok(Target(name, None)) <==> name in known
  {}

  // ---------- Printed addresses ----------

  function PrimaryMailbox(box: string, boxN: string): string {
    box + "." + boxN
  }

  function SurfaceAddress(box: string, boxN: string, surface: string): string {
    SCHEME + PrimaryMailbox(box, boxN) + "." + surface
  }

  /** A printed surface address resolves back to the primary mailbox and the surface
    * exactly when the primary is registered and no longer dot-prefix of the printed
    * name is. */
  lemma SurfaceRoundTrip(known: seq<string>, box: string, boxN: string, surface: string, r: Result<Target, AddressError>)
    requires Resolves(known, SurfaceAddress(box, boxN, surface), r)
    ensures
      var primary := PrimaryMailbox(box, boxN);
      r == Ok(Target(primary, Some(surface))) <==>
        primary in known
        && forall other :: other in known && IsDotPrefix(other, primary + "." + surface) ==> |other| <= |primary|
  {
    var primary := PrimaryMailbox(box, boxN);
    var address, path := SurfaceAddress(box, boxN, surface), primary + "." + surface;
    assert address == SCHEME + path;
    assert address[|SCHEME|..] == path;
    assert IsDotPrefix(primary, path);
    if IsLongest(primary, path, known) {
      assert Resolves(known, address, Ok(Target(primary, Some(surface))));
      ResolvesOnce(known, address, r, Ok(Target(primary, Some(surface))));
    }
  }
}
