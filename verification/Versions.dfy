/** Reading a version out of a tool's banner, and holding it against a requirement. */
module Versions {
  import opened Wrappers
  import opened LaunchSchema
  import opened Strings

  const MAX_INT := 0x7fff_ffff_ffff_ffff

  datatype Version = Version(major: nat, minor: nat, patch: nat)

  // ---------- The pattern: digits, a dot, digits, and optionally a dot and digits ----------

  /** The three groups of a match; an absent patch is empty. */
  datatype Groups = Groups(major: string, minor: string, patch: string)

  function DigitRun(s: string): (n: nat)
    ensures n <= |s| && AllDigits(s[..n]) && (n < |s| ==> !IsDigit(s[n]))
  {
    if s == "" || !IsDigit(s[0]) then 0 else 1 + DigitRun(s[1..])
  }

  /** A match that starts at the first character; every group takes all the digits it can. */
  function MatchHere(s: string): (g: Option<Groups>)
    ensures g.Some? ==> AllDigits(g.value.major) && AllDigits(g.value.minor) && AllDigits(g.value.patch)
  {
    var n := DigitRun(s);
    if n == 0 || n == |s| || s[n] != '.' then None
    else
      var rest := s[n + 1..];
      var m := DigitRun(rest);
      if m == 0 then None
      else Some(Groups(s[..n], rest[..m], PatchHere(rest[m..])))
  }

  function PatchHere(s: string): (p: string)
    ensures AllDigits(p)
  {
    if s != "" && s[0] == '.' then s[1..][..DigitRun(s[1..])] else ""
  }

  /** The leftmost match. */
  function Find(s: string): (g: Option<Groups>)
    ensures g.Some? ==> AllDigits(g.value.major) && AllDigits(g.value.minor) && AllDigits(g.value.patch)
  {
    if MatchHere(s).Some? then MatchHere(s)
    else if s == "" then None
    else Find(s[1..])
  }

  /** Digits that do not fit a 64-bit integer are an error. */
  function Atoi(s: string): Option<nat>
    requires AllDigits(s)
  {
    if ValueOf(s) <= MAX_INT then Some(ValueOf(s)) else None
  }

  function ParseVersion(raw: string): Option<Version> {
    var g := Find(raw);
    if g.None? then None
    else
      var major, minor := Atoi(g.value.major), Atoi(g.value.minor);
      var patch := if g.value.patch == "" then Some(0) else Atoi(g.value.patch);
      if major.None? || minor.None? || patch.None? then None
      else Some(Version(major.value, minor.value, patch.value))
  }

  // ---------- What parsing finds ----------

  /** There is a match exactly when some digit, dot and digit stand next to each other. */
  ghost predicate HasVersionAt(s: string, k: nat) {
    k + 2 < |s| && IsDigit(s[k]) && s[k + 1] == '.' && IsDigit(s[k + 2])
  }

  lemma {:induction false} FoundIff(s: string)
    ensures Find(s).Some? <==> exists k: nat :: HasVersionAt(s, k)
  {
    var n := DigitRun(s);
    if MatchHere(s).Some? {
      assert HasVersionAt(s, n - 1) by {
        assert IsDigit(s[..n][n - 1]);
        var rest := s[n + 1..];
        assert IsDigit(rest[..DigitRun(rest)][0]);
      }
    } else if s != "" {
      FoundIff(s[1..]);
      MatchHereIfAtZero(s);
      if k: nat :| HasVersionAt(s, k) {
        assert k > 0;
        assert HasVersionAt(s[1..], k - 1);
      }
      if k: nat :| HasVersionAt(s[1..], k) {
        assert HasVersionAt(s, k + 1);
      }
    }
  }

  lemma MatchHereIfAtZero(s: string)
    ensures HasVersionAt(s, 0) ==> MatchHere(s).Some?
  {
    if HasVersionAt(s, 0) {
      DigitsOnlyTo(s, 1);
      assert DigitRun(s[2..]) > 0;
    }
  }

  /** A run of digits up to a non-digit is exactly the digit run. */
  lemma {:induction false} DigitsOnlyTo(s: string, n: nat)
    requires n <= |s| && AllDigits(s[..n]) && (n < |s| ==> !IsDigit(s[n]))
    ensures DigitRun(s) == n
  {
    if n > 0 {
      assert IsDigit(s[..n][0]);
      assert s[1..][..n - 1] == s[..n][1..];
      DigitsOnlyTo(s[1..], n - 1);
    }
  }

  predicate StartsWithDigit(s: string) {
    s != "" && IsDigit(s[0])
  }

  lemma {:induction false} SkipPrefix(prefix: string, s: string)
    requires forall i | 0 <= i < |prefix| :: !IsDigit(prefix[i])
    ensures Find(prefix + s) == Find(s)
  {
    if prefix == "" {
      assert prefix + s == s;
    } else {
      var t := prefix + s;
      assert t[0] == prefix[0] && t[1..] == prefix[1..] + s;
      DigitsOnlyTo(t, 0);
      SkipPrefix(prefix[1..], s);
    }
  }

  lemma RunOf(digits: string, rest: string)
    requires AllDigits(digits) && !StartsWithDigit(rest)
    ensures var s, k := digits + rest, |digits|;
            DigitRun(s) == k && s[..k] == digits && s[k..] == rest
  {
    var s := digits + rest;
    assert s[..|digits|] == digits;
    DigitsOnlyTo(s, |digits|);
  }

  function Print(v: Version): string {
    Decimal(v.major) + ("." + (Decimal(v.minor) + ("." + Decimal(v.patch))))
  }

  predicate Fits(v: Version) {
    v.major <= MAX_INT && v.minor <= MAX_INT && v.patch <= MAX_INT
  }

  /** A match from its two digit runs. */
  lemma MatchParts(s: string, n: nat, m: nat)
    requires 0 < n < |s| && s[n] == '.' && DigitRun(s) == n
    requires 0 < m <= |s| - n - 1 && DigitRun(s[n + 1..]) == m
    ensures MatchHere(s) == Some(Groups(s[..n], s[n + 1..][..m], PatchHere(s[n + 1..][m..])))
  {
  }

  lemma MatchDigits(major: string, minor: string, tail: string)
    requires major != "" && AllDigits(major) && minor != "" && AllDigits(minor) && !StartsWithDigit(tail)
    ensures MatchHere(major + ("." + (minor + tail))) == Some(Groups(major, minor, PatchHere(tail)))
  {
    var rest := minor + tail;
    var s := major + ("." + rest);
    RunOf(major, "." + rest);
    assert s[|major| + 1..] == rest;
    RunOf(minor, tail);
    MatchParts(s, |major|, |minor|);
  }

  lemma MatchPrinted(major: nat, minor: nat, tail: string)
    requires !StartsWithDigit(tail)
    ensures MatchHere(Decimal(major) + ("." + (Decimal(minor) + tail)))
         == Some(Groups(Decimal(major), Decimal(minor), PatchHere(tail)))
  {
    MatchDigits(Decimal(major), Decimal(minor), tail);
  }

  /** A printed version between a digit-free prefix and a suffix that does not go on with a
      digit is read back; it is refused when a part is too large for an int. */
  lemma ParsePrinted(prefix: string, v: Version, suffix: string)
    requires forall i | 0 <= i < |prefix| :: !IsDigit(prefix[i])
    requires !StartsWithDigit(suffix)
    ensures ParseVersion(prefix + (Print(v) + suffix)) == if Fits(v) then Some(v) else None
  {
    var tail := "." + (Decimal(v.patch) + suffix);
    var s := Decimal(v.major) + ("." + (Decimal(v.minor) + tail));
    assert Print(v) + suffix == s;
    SkipPrefix(prefix, s);
    MatchPrinted(v.major, v.minor, tail);
    RunOf(Decimal(v.patch), suffix);
    assert tail[1..] == Decimal(v.patch) + suffix;
    assert PatchHere(tail) == Decimal(v.patch);
    DecimalRoundTrip(v.major);
    DecimalRoundTrip(v.minor);
    DecimalRoundTrip(v.patch);
  }

  /** The parts must fit a 64-bit integer, and no smaller one. */
  lemma FitsIff(v: Version)
    ensures Fits(v) <==>
            && v.major < 0x8000_0000_0000_0000
            && v.minor < 0x8000_0000_0000_0000
            && v.patch < 0x8000_0000_0000_0000
  {
  }

  /** Without a patch part, the patch reads as 0. */
  lemma ParsePrintedWithoutPatch(prefix: string, major: nat, minor: nat, suffix: string)
    requires forall i | 0 <= i < |prefix| :: !IsDigit(prefix[i])
    requires !StartsWithDigit(suffix)
    requires suffix != "" && suffix[0] == '.' ==> !StartsWithDigit(suffix[1..])
    ensures ParseVersion(prefix + (Decimal(major) + ("." + (Decimal(minor) + suffix))))
         == if Fits(Version(major, minor, 0)) then Some(Version(major, minor, 0)) else None
  {
    SkipPrefix(prefix, Decimal(major) + ("." + (Decimal(minor) + suffix)));
    MatchPrinted(major, minor, suffix);
    if suffix != "" && suffix[0] == '.' {
      DigitsOnlyTo(suffix[1..], 0);
    }
    DecimalRoundTrip(major);
    DecimalRoundTrip(minor);
  }

  // ---------- Comparing ----------

  function Compare(a: Version, b: Version): int {
    if a.major != b.major then if a.major < b.major then -1 else 1
    else if a.minor != b.minor then if a.minor < b.minor then -1 else 1
    else if a.patch != b.patch then if a.patch < b.patch then -1 else 1
    else 0
  }

  lemma CompareIsATotalOrder(a: Version, b: Version, c: Version)
    ensures Compare(a, b) == -Compare(b, a)
    ensures Compare(a, b) == 0 <==> a == b
    ensures Compare(a, b) <= 0 && Compare(b, c) <= 0 ==> Compare(a, c) <= 0
  {
  }

  // ---------- Requirements ----------

  datatype VersionReason = VersionUnknown | VersionUnparseable | VersionMismatch | VersionTooOld

  /** None accepts. A part of the requirement that is absent is `given == false`; one that is
      given but carries no version is `None`. */
  function Judge(seen: Option<Version>, exactGiven: bool, exact: Option<Version>, minGiven: bool, min: Option<Version>)
    : Option<VersionReason>
  {
    if seen.None? then Some(VersionUnparseable)
    else if exactGiven && exact.None? then Some(VersionUnparseable)
    else if exactGiven && Compare(seen.value, exact.value) != 0 then Some(VersionMismatch)
    else if minGiven && min.None? then Some(VersionUnparseable)
    else if minGiven && Compare(seen.value, min.value) < 0 then Some(VersionTooOld)
    else None
  }

  function CheckRequirement(observed: string, req: Option<VersionRequirement>): Option<VersionReason> {
    if req.None? || (req.value.minimum == "" && req.value.exact == "") then None
    else if observed == "" then Some(VersionUnknown)
    else
      Judge(ParseVersion(observed), req.value.exact != "", ParseVersion(req.value.exact),
            req.value.minimum != "", ParseVersion(req.value.minimum))
  }

  predicate Accepts(observed: string, req: Option<VersionRequirement>) {
    CheckRequirement(observed, req).None?
  }

  predicate AtLeast(a: Version, b: Version) {
    a.major > b.major || (a.major == b.major && (a.minor > b.minor || (a.minor == b.minor && a.patch >= b.patch)))
  }

  lemma JudgeIff(seen: Option<Version>, exactGiven: bool, exact: Option<Version>, minGiven: bool, min: Option<Version>)
    ensures Judge(seen, exactGiven, exact, minGiven, min).None? <==>
            && seen.Some?
            && (exactGiven ==> exact == seen)
            && (minGiven ==> min.Some? && AtLeast(seen.value, min.value))
  {
  }

  /** A requirement accepts a banner exactly when the banner carries a version that equals the
      exact one, if there is one, and is not below the minimum, if there is one. */
  lemma AcceptsIff(observed: string, minimum: string, exact: string)
    ensures Accepts(observed, Some(VersionRequirement(minimum, exact))) <==>
            || (minimum == "" && exact == "")
            || (&& ParseVersion(observed).Some?
                && (exact != "" ==> ParseVersion(exact) == ParseVersion(observed))
                && (minimum != "" ==> ParseVersion(minimum).Some?
                                      && AtLeast(ParseVersion(observed).value, ParseVersion(minimum).value)))
  {
    NoVersionInEmpty();
    JudgeIff(ParseVersion(observed), exact != "", ParseVersion(exact), minimum != "", ParseVersion(minimum));
  }

  lemma JudgeReasons(seen: Option<Version>, exactGiven: bool, exact: Option<Version>,
                     minGiven: bool, min: Option<Version>)
    ensures Judge(seen, exactGiven, exact, minGiven, min) == Reasons(seen, exactGiven, exact, minGiven, min)
  {
  }

  /** No version in a text, the exact version missed, or the minimum missed, in this order. */
  ghost function Reasons(seen: Option<Version>, exactGiven: bool, exact: Option<Version>,
                         minGiven: bool, min: Option<Version>)
    : Option<VersionReason>
  {
    if seen.None? || (exactGiven && exact.None?) then Some(VersionUnparseable)
    else if exactGiven && exact != seen then Some(VersionMismatch)
    else if minGiven && min.None? then Some(VersionUnparseable)
    else if minGiven && !AtLeast(seen.value, min.value) then Some(VersionTooOld)
    else None
  }

  /** Why a banner is refused. */
  lemma RefusalReasons(observed: string, minimum: string, exact: string)
    requires minimum != "" || exact != ""
    ensures CheckRequirement(observed, Some(VersionRequirement(minimum, exact))) ==
            if observed == "" then Some(VersionUnknown)
            else Reasons(ParseVersion(observed), exact != "", ParseVersion(exact), minimum != "", ParseVersion(minimum))
  {
    JudgeReasons(ParseVersion(observed), exact != "", ParseVersion(exact), minimum != "", ParseVersion(minimum));
  }

  /** A later version also passes, and so does a lower minimum. */
  lemma JudgeIsMonotone(older: Version, newer: Version, low: Version, high: Version)
    requires Compare(older, newer) <= 0 && Compare(low, high) <= 0
    requires Judge(Some(older), false, None, true, Some(high)).None?
    ensures Judge(Some(newer), false, None, true, Some(low)).None?
  {
    CompareIsATotalOrder(low, high, older);
    CompareIsATotalOrder(low, older, newer);
    CompareIsATotalOrder(older, high, high);
    CompareIsATotalOrder(newer, low, low);
  }

  /** A minimum that accepts a banner accepts every banner with a later version, and so does
      every lower minimum. */
  lemma MinimumIsMonotone(older: string, newer: string, low: string, high: string)
    requires ParseVersion(older).Some? && ParseVersion(newer).Some?
    requires ParseVersion(low).Some? && ParseVersion(high).Some?
    requires Compare(ParseVersion(older).value, ParseVersion(newer).value) <= 0
    requires Compare(ParseVersion(low).value, ParseVersion(high).value) <= 0
    requires Accepts(older, Some(VersionRequirement(high, "")))
    ensures Accepts(newer, Some(VersionRequirement(low, "")))
  {
    NoVersionInEmpty();
    JudgeIff(ParseVersion(older), false, ParseVersion(""), true, ParseVersion(high));
    JudgeIff(Some(ParseVersion(older).value), false, None, true, ParseVersion(high));
    JudgeIsMonotone(ParseVersion(older).value, ParseVersion(newer).value,
                    ParseVersion(low).value, ParseVersion(high).value);
    JudgeIff(ParseVersion(newer), false, None, true, ParseVersion(low));
    JudgeIff(ParseVersion(newer), false, ParseVersion(""), true, ParseVersion(low));
  }

  lemma NoVersionInEmpty()
    ensures ParseVersion("") == None
  {
  }

  /** With an exact version, all accepted banners carry the same version. */
  lemma ExactIsExact(a: string, b: string, exact: string, minimum: string)
    requires exact != "" && Accepts(a, Some(VersionRequirement(minimum, exact)))
    ensures ParseVersion(a).Some? && ParseVersion(a) == ParseVersion(exact)
    ensures ParseVersion(b) == ParseVersion(a) ==> Accepts(b, Some(VersionRequirement(minimum, exact)))
  {
    AcceptsIff(a, minimum, exact);
    AcceptsIff(b, minimum, exact);
  }
}
