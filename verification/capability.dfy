/** The device probes of the entry script: the user-agent test for mobile devices and the
    low-end heuristic built from network, memory and core-count hints. */
module Capability {
  import opened Wrappers
  import opened Text

  /** The alternatives of `/Android|webOS|iPhone|iPad|iPod|BlackBerry|IEMobile|Opera Mini/i`,
      lower-cased. The pattern is case-insensitive and ASCII-only, so folding the user agent
      to lower case and comparing is the same test. */
  const MobileTokens: seq<string> :=
    ["android", "webos", "iphone", "ipad", "ipod", "blackberry", "iemobile", "opera mini"]

  /** `token` (lower-case) occurs in `ua` at position `i`, ignoring ASCII case. */
  predicate MatchesAt(ua: string, token: string, i: int)
  {
    0 <= i && i + |token| <= |ua| && forall j :: 0 <= j < |token| ==> LowerAscii(ua[i + j]) == token[j]
  }

  /** What the regular expression tests: some token occurs somewhere in the user agent. */
  ghost predicate MentionsMobileToken(ua: string)
  {
    exists t, i :: 0 <= t < |MobileTokens| && MatchesAt(ua, MobileTokens[t], i)
  }

  predicate AnyTokenAt(ua: string, i: int)
  {
    exists t :: 0 <= t < |MobileTokens| && MatchesAt(ua, MobileTokens[t], i)
  }

  /** Tries every token at every position from `i` on. */
  function ScanFrom(ua: string, i: nat): (r: bool)
    requires i <= |ua|
    ensures r <==> exists p :: i <= p && AnyTokenAt(ua, p)
    decreases |ua| - i
  {
    if i == |ua| then
      assert forall p :: i <= p ==> !AnyTokenAt(ua, p) by {
        forall p, t | i <= p && 0 <= t < |MobileTokens| ensures !MatchesAt(ua, MobileTokens[t], p) {
          assert |MobileTokens[t]| > 0;
        }
      }
      false
    else
      AnyTokenAt(ua, i) || ScanFrom(ua, i + 1)
  }

  /** `isMobileDevice()`: true exactly when the user agent mentions one of the tokens. */
  function IsMobileDevice(ua: string): (r: bool)
    ensures r <==> MentionsMobileToken(ua)
  {
    assert MentionsMobileToken(ua) ==> exists p :: 0 <= p && AnyTokenAt(ua, p) by {
      if MentionsMobileToken(ua) {
        var t, i :| 0 <= t < |MobileTokens| && MatchesAt(ua, MobileTokens[t], i);
        assert AnyTokenAt(ua, i);
      }
    }
    ScanFrom(ua, 0)
  }

  /** `navigator.connection` (or its vendor-prefixed variants): the data-saver flag and the
      effective connection type, either of which may be missing. */
  datatype Connection = Connection(saveData: bool, effectiveType: Option<string>)

  /** The navigator fields the page reads. A field the browser does not provide is `None`. */
  datatype Navigator = Navigator(
    userAgent: string,
    connection: Option<Connection>,
    mozConnection: Option<Connection>,
    webkitConnection: Option<Connection>,
    deviceMemory: Option<real>,
    hardwareConcurrency: Option<int>)

  /** `navigator.connection || navigator.mozConnection || navigator.webkitConnection`. */
  function ActiveConnection(nav: Navigator): (c: Option<Connection>)
    ensures c.Some? <==> nav.connection.Some? || nav.mozConnection.Some? || nav.webkitConnection.Some?
    ensures nav.connection.Some? ==> c == nav.connection
  {
    if nav.connection.Some? then nav.connection
    else if nav.mozConnection.Some? then nav.mozConnection
    else nav.webkitConnection
  }

  predicate SlowType(t: Option<string>)
  {
    t == Some("slow-2g") || t == Some("2g")
  }

  /** `isLowEndDevice()`: a data-saver or 2G connection, less than 4 GB of memory, or fewer
      than 4 cores. A hint that is missing or 0 is falsy in the source and is skipped. */
  function IsLowEndDevice(nav: Navigator): (r: bool)
    ensures r <==>
      || (ActiveConnection(nav).Some? &&
          (ActiveConnection(nav).value.saveData || SlowType(ActiveConnection(nav).value.effectiveType)))
      || (nav.deviceMemory.Some? && nav.deviceMemory.value != 0.0 && nav.deviceMemory.value < 4.0)
      || (nav.hardwareConcurrency.Some? && nav.hardwareConcurrency.value != 0 && nav.hardwareConcurrency.value < 4)
  {
    var connection := ActiveConnection(nav);
    if connection.Some? && (connection.value.saveData || SlowType(connection.value.effectiveType)) then true
    else if nav.deviceMemory.Some? && nav.deviceMemory.value != 0.0 && nav.deviceMemory.value < 4.0 then true
    else if nav.hardwareConcurrency.Some? && nav.hardwareConcurrency.value != 0 && nav.hardwareConcurrency.value < 4 then true
    else false
  }

  /** With no hint at all the device counts as capable: the heuristic fails open. */
  lemma NoHintsFailsOpen(ua: string)
    ensures !IsLowEndDevice(Navigator(ua, None, None, None, None, None))
  {}

  /** A memory or core-count hint of 0 is treated exactly like a missing one. */
  lemma ZeroHintsIgnored(nav: Navigator)
    ensures IsLowEndDevice(nav.(deviceMemory := Some(0.0))) == IsLowEndDevice(nav.(deviceMemory := None))
    ensures IsLowEndDevice(nav.(hardwareConcurrency := Some(0))) == IsLowEndDevice(nav.(hardwareConcurrency := None))
  {}

  /** Only the first connection object present is consulted: a slow vendor-prefixed
      connection is ignored when the standard one is present and fast. */
  lemma FirstConnectionWins(nav: Navigator)
    requires nav.connection == Some(Connection(false, Some("4g")))
    requires nav.mozConnection == Some(Connection(true, Some("2g")))
    requires nav.deviceMemory.None? && nav.hardwareConcurrency.None?
    ensures !IsLowEndDevice(nav)
  {}
}
