/**
 * Version gating of over-the-air updates (main.c:36, 72-78, 132-157).
 * Version strings are the characters before their NUL terminator; characters are
 * ordered by code point, which is strcmp's unsigned-char order for byte-sized characters.
 */
module Versions {

  /** The firmware's own version, MAIN_APP_VERSION. */
  const AppVersion: string := "01.01.00"

  /** The sign of strcmp's result. */
  datatype Ordering = Less | Equal | Greater

  /** Lexicographic order on C strings: `a` is a proper prefix of `b`, or at the first
      position where they differ `a` has the smaller character. */
  ghost predicate LexLess(a: string, b: string)
  {
    (|a| < |b| && a == b[..|a|]) ||
    exists k :: 0 <= k < |a| && k < |b| && a[..k] == b[..k] && a[k] < b[k]
  }

  /** strcmp(a, b), reduced to its sign. */
  function StrCmp(a: string, b: string): (o: Ordering)
    ensures o == Equal <==> a == b
  {
    if |a| == 0 && |b| == 0 then Equal
    else if |a| == 0 then Less
    else if |b| == 0 then Greater
    else if a[0] < b[0] then Less
    else if a[0] > b[0] then Greater
    else
      var o := StrCmp(a[1..], b[1..]);
      assert a == [a[0]] + a[1..] && b == [b[0]] + b[1..];
      o
  }

  /** Two non-empty strings with the same first character compare as their tails do. */
  lemma LexLessTail(a: string, b: string)
    requires |a| > 0 && |b| > 0 && a[0] == b[0]
    ensures LexLess(a, b) <==> LexLess(a[1..], b[1..])
  {
    if LexLess(a, b) {
      if |a| < |b| && a == b[..|a|] {
        assert a[1..] == b[1..][..|a[1..]|];
      } else {
        var k :| 0 <= k < |a| && k < |b| && a[..k] == b[..k] && a[k] < b[k];
        assert k > 0;
        assert a[1..][..k - 1] == a[..k][1..] && b[1..][..k - 1] == b[..k][1..];
        assert a[1..][k - 1] < b[1..][k - 1];
      }
    }
    if LexLess(a[1..], b[1..]) {
      var a', b' := a[1..], b[1..];
      if |a'| < |b'| && a' == b'[..|a'|] {
        assert a == [a[0]] + a' && b[..|a|] == [b[0]] + b'[..|a'|];
      } else {
        var k :| 0 <= k < |a'| && k < |b'| && a'[..k] == b'[..k] && a'[k] < b'[k];
        assert a[..k + 1] == [a[0]] + a'[..k] && b[..k + 1] == [b[0]] + b'[..k];
        assert a[k + 1] < b[k + 1];
      }
    }
  }

  /** strcmp is lexicographic comparison: the sign of strcmp(a, b) is negative exactly
      when `a` comes first, zero exactly when the strings are equal, positive exactly
      when `b` comes first. */
  lemma {:induction false} StrCmpIsLexicographic(a: string, b: string)
    ensures StrCmp(a, b) == Less <==> LexLess(a, b)
    ensures StrCmp(a, b) == Equal <==> a == b
    ensures StrCmp(a, b) == Greater <==> LexLess(b, a)
    decreases |a|
  {
    if |a| == 0 || |b| == 0 {
      if |a| == 0 && |b| > 0 {
        assert a == b[..|a|];
      }
      if |b| == 0 && |a| > 0 {
        assert b == a[..|b|];
      }
    } else if a[0] < b[0] {
      assert a[..0] == b[..0] && a[0] < b[0];
      assert !LexLess(b, a) by { NotLexLessWhenFirstGreater(b, a); }
    } else if a[0] > b[0] {
      assert b[..0] == a[..0] && b[0] < a[0];
      assert !LexLess(a, b) by { NotLexLessWhenFirstGreater(a, b); }
    } else {
      StrCmpIsLexicographic(a[1..], b[1..]);
      LexLessTail(a, b);
      LexLessTail(b, a);
    }
  }

  /** A string whose first character is larger does not come first. */
  lemma NotLexLessWhenFirstGreater(a: string, b: string)
    requires |a| > 0 && |b| > 0 && a[0] > b[0]
    ensures !LexLess(a, b)
  {
  }

  /** Exactly one of: same version, offered version later, offered version earlier. */
  lemma VersionTrichotomy(version: string)
    ensures version == AppVersion || LexLess(AppVersion, version) || LexLess(version, AppVersion)
    ensures !(version == AppVersion && LexLess(AppVersion, version))
    ensures !(version == AppVersion && LexLess(version, AppVersion))
    ensures !(LexLess(AppVersion, version) && LexLess(version, AppVersion))
  {
    StrCmpIsLexicographic(AppVersion, version);
  }

  /** is_app_version_same_as_ota: strcmp(MAIN_APP_VERSION, version) == 0. */
  function IsSameVersion(version: string): (same: bool)
    requires '\0' !in version  // a C string: its characters before the terminator
    ensures same <==> version == AppVersion
  {
    StrCmp(AppVersion, version) == Equal
  }

  /** app_needs_ota_update: strcmp(MAIN_APP_VERSION, version) < 0. */
  function NeedsOtaUpdate(version: string): (needs: bool)
    requires '\0' !in version  // a C string: its characters before the terminator
    ensures needs <==> LexLess(AppVersion, version)
    ensures needs ==> version != AppVersion
  {
    StrCmpIsLexicographic(AppVersion, version);
    StrCmp(AppVersion, version) == Less
  }

  /** The three outcomes on_ota distinguishes. */
  datatype Verdict = SameVersion | NeedsUpdate | DeviceNewer

  /** The branch on_ota takes for an offered version. */
  function Classify(version: string): (v: Verdict)
    requires '\0' !in version  // a C string: its characters before the terminator
    ensures v == SameVersion <==> version == AppVersion
    ensures v == NeedsUpdate <==> LexLess(AppVersion, version)
    ensures v == DeviceNewer <==> LexLess(version, AppVersion)
  {
    StrCmpIsLexicographic(AppVersion, version);
    if IsSameVersion(version) then SameVersion
    else if NeedsOtaUpdate(version) then NeedsUpdate
    else DeviceNewer
  }

  /** The version format main.c:36 asks for: two digits per field, "DD.DD.DD". */
  predicate IsTwoDigitVersion(v: string)
  {
    && |v| == 8 && v[2] == '.' && v[5] == '.'
    && (forall i :: 0 <= i < 8 && i != 2 && i != 5 ==> '0' <= v[i] <= '9')
  }

  /** The number written by the two digits at `v[i]` and `v[i + 1]`. */
  function Field(v: string, i: nat): int
    requires i + 1 < |v|
  {
    10 * (v[i] as int - '0' as int) + (v[i + 1] as int - '0' as int)
  }

  /** (major, minor, patch) of `a` is smaller than that of `b`. */
  predicate NumericLess(a: string, b: string)
    requires IsTwoDigitVersion(a) && IsTwoDigitVersion(b)
  {
    || Field(a, 0) < Field(b, 0)
    || (Field(a, 0) == Field(b, 0) && Field(a, 3) < Field(b, 3))
    || (Field(a, 0) == Field(b, 0) && Field(a, 3) == Field(b, 3) && Field(a, 6) < Field(b, 6))
  }

  /** For two-digit versions, coming first in strcmp order means a smaller number. */
  lemma LexLessIsNumericLess(a: string, b: string)
    requires IsTwoDigitVersion(a) && IsTwoDigitVersion(b) && LexLess(a, b)
    ensures NumericLess(a, b)
  {
    var k :| 0 <= k < |a| && k < |b| && a[..k] == b[..k] && a[k] < b[k];
    forall i | 0 <= i < k
      ensures a[i] == b[i]
    {
      assert a[..k][i] == b[..k][i];
    }
    assert k != 2 && k != 5;
  }

  /** Equal fields mean equal two-digit versions. */
  lemma FieldsDetermineVersion(a: string, b: string)
    requires IsTwoDigitVersion(a) && IsTwoDigitVersion(b)
    requires Field(a, 0) == Field(b, 0) && Field(a, 3) == Field(b, 3) && Field(a, 6) == Field(b, 6)
    ensures a == b
  {
    forall i | 0 <= i < 8
      ensures a[i] == b[i]
    {
      if i != 2 && i != 5 {
        var p := if i < 2 then 0 else if i < 5 then 3 else 6;
        assert '0' <= a[p] <= '9' && '0' <= b[p] <= '9';
        assert '0' <= a[p + 1] <= '9' && '0' <= b[p + 1] <= '9';
      }
    }
  }

  /** With two-digit versions, as main.c:36 requires, strcmp gating is numeric gating: an
      update is needed exactly when the offered (major, minor, patch) is larger than the
      firmware's. */
  lemma TwoDigitGatingIsNumeric(version: string)
    requires IsTwoDigitVersion(version)
    ensures '\0' !in version
    ensures Classify(version) == NeedsUpdate <==> NumericLess(AppVersion, version)
    ensures Classify(version) == DeviceNewer <==> NumericLess(version, AppVersion)
  {
    assert IsTwoDigitVersion(AppVersion);
    forall i | 0 <= i < |version|
      ensures version[i] != '\0'
    {
      if i != 2 && i != 5 {
        assert '0' <= version[i] <= '9';
      }
    }
    VersionTrichotomy(version);
    if LexLess(AppVersion, version) {
      LexLessIsNumericLess(AppVersion, version);
    } else if LexLess(version, AppVersion) {
      LexLessIsNumericLess(version, AppVersion);
    }
    if Field(AppVersion, 0) == Field(version, 0) && Field(AppVersion, 3) == Field(version, 3)
       && Field(AppVersion, 6) == Field(version, 6) {
      FieldsDetermineVersion(AppVersion, version);
    }
  }

  /** Without the two-digit convention strcmp gating is not numeric: "1.10.0" sorts before
      "1.9.0" although minor version 10 is later than 9. */
  lemma OneDigitFieldsMisorder()
    ensures LexLess("1.10.0", "1.9.0")
  {
    StrCmpIsLexicographic("1.10.0", "1.9.0");
  }
}
