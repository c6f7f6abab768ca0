/**
 * start_ota (main.c:105-123): splits a download URL held in a NUL-terminated buffer into a
 * host string and a path string, in place, by counting '/' characters. It is not a URI
 * parser: the host starts after the second '/', the third '/' is overwritten with NUL and
 * the path starts after it; ports, user information and the scheme are not looked at.
 */
module OtaUrl {
  import opened Wrappers
  import opened CStrings
  import opened Errno

  /** The number of '/' characters in `s`. */
  function SlashCount(s: seq<char>): nat
  {
    if |s| == 0 then 0
    else (if s[0] == '/' then 1 else 0) + SlashCount(s[1..])
  }

  /** Counting slashes distributes over concatenation. */
  lemma {:induction false} SlashCountAppend(a: seq<char>, b: seq<char>)
    ensures SlashCount(a + b) == SlashCount(a) + SlashCount(b)
    decreases |a|
  {
    if |a| > 0 {
      assert (a + b)[1..] == a[1..] + b;
      SlashCountAppend(a[1..], b);
    } else {
      assert a + b == b;
    }
  }

  /** A text with no slash counted has no slash in it. */
  lemma {:induction false} NoSlashCounted(s: seq<char>)
    requires SlashCount(s) == 0
    ensures '/' !in s
  {
    if |s| > 0 {
      NoSlashCounted(s[1..]);
      assert s == [s[0]] + s[1..];
    }
  }

  /** The index of the k-th '/' of `s` (counting from 1), if there is one. */
  function NthSlash(s: seq<char>, k: nat): (r: Option<nat>)
    requires k >= 1
    ensures r.Some? ==> r.value < |s| && s[r.value] == '/' && SlashCount(s[..r.value]) == k - 1
    ensures r.None? <==> SlashCount(s) < k
    decreases |s|
  {
    if |s| == 0 then None
    else if s[0] == '/' && k == 1 then Some(0)
    else
      var rest := NthSlash(s[1..], if s[0] == '/' then k - 1 else k);
      if rest.None? then None
      else
        assert s[..rest.value + 1][1..] == s[1..][..rest.value];
        Some(rest.value + 1)
  }

  /** A '/' preceded by exactly k - 1 others is the k-th one. */
  lemma {:induction false} NthSlashAt(s: seq<char>, k: nat, j: nat)
    requires k >= 1 && j < |s| && s[j] == '/' && SlashCount(s[..j]) == k - 1
    ensures NthSlash(s, k) == Some(j)
    decreases j
  {
    if j > 0 {
      assert s[..j][1..] == s[1..][..j - 1];
      if s[0] == '/' {
        NthSlashAt(s[1..], k - 1, j - 1);
      } else {
        NthSlashAt(s[1..], k, j - 1);
      }
    }
  }

  /** The k-th slash of a prefix is the k-th slash of the whole text. */
  lemma NthSlashOfPrefix(s: seq<char>, i: nat, k: nat)
    requires k >= 1 && i <= |s| && NthSlash(s[..i], k).Some?
    ensures NthSlash(s, k) == NthSlash(s[..i], k)
  {
    var j := NthSlash(s[..i], k).value;
    assert s[..i][..j] == s[..j];
    NthSlashAt(s, k, j);
  }

  /** How start_ota splits the text of a URL. */
  datatype UrlSplit =
    | TooFewSlashes(recordedHost: Option<nat>)   // fewer than three '/': -EINVAL; a host may still have been recorded
    | HostAndPath(hostStart: nat, pathStart: nat)

  /** The split start_ota performs on URL text `s`: the host begins after the second '/',
      the path after the third, and with fewer than three slashes there is no path. */
  function SplitUrl(s: seq<char>): (u: UrlSplit)
    ensures u.HostAndPath? <==> SlashCount(s) >= 3
    ensures u.HostAndPath? ==>
      && 0 < u.hostStart < u.pathStart <= |s|
      && s[u.hostStart - 1] == '/' && SlashCount(s[..u.hostStart - 1]) == 1
      && s[u.pathStart - 1] == '/' && SlashCount(s[..u.pathStart - 1]) == 2
      && '/' !in s[u.hostStart..u.pathStart - 1]
    ensures u.TooFewSlashes? ==> (u.recordedHost.Some? <==> SlashCount(s) == 2)
    ensures u.TooFewSlashes? && u.recordedHost.Some? ==>
      && 0 < u.recordedHost.value <= |s|
      && s[u.recordedHost.value - 1] == '/' && SlashCount(s[..u.recordedHost.value - 1]) == 1
  {
    match NthSlash(s, 3)
    case Some(j3) =>
      var j2 := SecondBeforeThird(s, j3);
      HostAndPath(j2 + 1, j3 + 1)
    case None =>
      match NthSlash(s, 2)
      case Some(j2) => TooFewSlashes(Some(j2 + 1))
      case None => TooFewSlashes(None)
  }

  /** With a third slash at j3, the second slash lies before it with no slash in between. */
  function SecondBeforeThird(s: seq<char>, j3: nat): (j2: nat)
    requires NthSlash(s, 3) == Some(j3)
    ensures NthSlash(s, 2) == Some(j2)
    ensures j2 < j3 && '/' !in s[j2 + 1..j3]
  {
    var p := s[..j3];
    var j2 := NthSlash(p, 2).value;
    NthSlashOfPrefix(s, j3, 2);
    assert p[..j2] == s[..j2];
    assert p == s[..j2] + [s[j2]] + s[j2 + 1..j3];
    SlashCountAppend(s[..j2] + [s[j2]], s[j2 + 1..j3]);
    SlashCountAppend(s[..j2], [s[j2]]);
    NoSlashCounted(s[j2 + 1..j3]);
    j2
  }

  /** The buffer after the split: the third slash, if any, becomes NUL. */
  function SplitBuffer(buf: seq<char>): seq<char>
    requires '\0' in buf
  {
    match SplitUrl(Content(buf))
    case HostAndPath(_, p) => buf[p - 1 := '\0']
    case TooFewSlashes(_) => buf
  }

  /** A pointer into a character buffer (C's char *). */
  datatype CharPtr = Null | Ptr(buf: array<char>, offset: nat)

  /** The fields of fota_config that start_ota assigns. */
  datatype ConfigValue = ConfigValue(host: CharPtr, path: CharPtr, callbackInstalled: bool, apn: CharPtr)

  /** fota_config after start_ota has scanned `url` whose text splits as `u`. */
  function ConfigAfterSplit(c: ConfigValue, url: array<char>, u: UrlSplit): ConfigValue
  {
    match u
    case HostAndPath(h, p) => ConfigValue(Ptr(url, h), Ptr(url, p), true, Null)
    case TooFewSlashes(Some(h)) => c.(host := Ptr(url, h))
    case TooFewSlashes(None) => c
  }

  /** start_ota's return value: nrf_fota_start's result once split, -EINVAL otherwise. */
  function StartResult(u: UrlSplit, fotaStartResult: int): (r: int)
    ensures u.TooFewSlashes? ==> r == -EINVAL
    ensures u.HostAndPath? ==> r == fotaStartResult
  {
    if u.HostAndPath? then fotaStartResult else -EINVAL
  }

  /** After the split, the C string at the host index is exactly the text between the
      second and third slashes and holds no '/', the C string at the path index is the rest
      of the URL, and no character other than the third slash has changed. */
  lemma SplitStrings(buf: seq<char>)
    requires '\0' in buf && SplitUrl(Content(buf)).HostAndPath?
    ensures var s, u, b := Content(buf), SplitUrl(Content(buf)), SplitBuffer(buf);
      && |b| == |buf|
      && (forall i :: 0 <= i < |buf| && i != u.pathStart - 1 ==> b[i] == buf[i])
      && buf[u.pathStart - 1] == '/' && b[u.pathStart - 1] == '\0'
      && '\0' in b[u.hostStart..] && Content(b[u.hostStart..]) == s[u.hostStart..u.pathStart - 1]
      && '/' !in Content(b[u.hostStart..])
      && '\0' in b[u.pathStart..] && Content(b[u.pathStart..]) == s[u.pathStart..]
  {
    var s, u, b := Content(buf), SplitUrl(Content(buf)), SplitBuffer(buf);
    var h, p := u.hostStart, u.pathStart;
    var n := |s|;
    assert b[h..][p - 1 - h] == '\0';
    assert b[h..][..p - 1 - h] == s[h..p - 1];
    StrLenAt(b[h..], p - 1 - h);
    assert b[p..][n - p] == '\0';
    assert b[p..][..n - p] == s[p..];
    StrLenAt(b[p..], n - p);
  }

  /** The configuration start_ota fills in; the host and path are pointers into the URL
      buffer and fota_cb is either unset or nrf_fota_cb. */
  class FotaConfig {
    var host: CharPtr
    var path: CharPtr
    var callbackInstalled: bool
    var apn: CharPtr

    function Value(): ConfigValue
      reads this
    {
      ConfigValue(host, path, callbackInstalled, apn)
    }

    /** The zero-initialised static fota_config. */
    constructor ()
      ensures Value() == ConfigValue(Null, Null, false, Null)
    {
      host, path, callbackInstalled, apn := Null, Null, false, Null;
    }
  }

  /** start_ota: scans the C string in `url` for slashes, records the host pointer at the
      second, and at the third writes NUL over it, records the path pointer and hands the
      configuration to nrf_fota_start, whose result (`fotaStartResult`) it returns; with
      fewer than three slashes it returns -EINVAL and leaves the buffer as it was. */
  method StartOta(url: array<char>, config: FotaConfig, fotaStartResult: int) returns (r: int)
    requires '\0' in url[..]
    modifies url, config
    ensures url[..] == SplitBuffer(old(url[..]))
    ensures config.Value() == ConfigAfterSplit(old(config.Value()), url, SplitUrl(Content(old(url[..]))))
    ensures r == StartResult(SplitUrl(Content(old(url[..]))), fotaStartResult)
  {
    ghost var s := Content(url[..]);
    var urlLen := StrLen(url[..]);
    var slashCount := 0;
    var i := 0;
    while i < urlLen
      invariant 0 <= i <= urlLen == |s|
      invariant url[..] == old(url[..])
      invariant slashCount == SlashCount(s[..i]) < 3
      invariant config.path == old(config.path) && config.apn == old(config.apn)
      invariant config.callbackInstalled == old(config.callbackInstalled)
      invariant config.host == match NthSlash(s[..i], 2)
                               case Some(j2) => Ptr(url, j2 + 1)
                               case None => old(config.host)
    {
      assert s[..i + 1] == s[..i] + [s[i]];
      SlashCountAppend(s[..i], [s[i]]);
      if url[i] == '/' {
        slashCount := slashCount + 1;
        if slashCount == 2 {
          NthSlashAt(s[..i + 1], 2, i);
          config.host := Ptr(url, i + 1);
        } else if slashCount == 3 {
          NthSlashAt(s, 3, i);
          NthSlashOfPrefix(s, i, 2);
          url[i] := '\0';
          config.path := Ptr(url, i + 1);
          config.callbackInstalled := true;
          config.apn := Null;
          r := fotaStartResult;
          return;
        }
      }
      if NthSlash(s[..i], 2).Some? {
        NthSlashOfPrefix(s[..i + 1], i, 2);
      }
      i := i + 1;
    }
    assert s[..i] == s;
    r := -EINVAL;
  }
}
