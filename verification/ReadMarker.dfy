/** The inbox read marker of one user. Clock times are milliseconds, stored times whole seconds. */
module ReadMarker {
  import opened Options
  import opened Totals
  import opened AlertWalk

  /** The body of a read request; an empty `through` counts as absent. */
  datatype Through = NoTime | BadTime | Time(ms: int)

  datatype Read = Read(through: Through, now: int)

  function StartOfSecond(ms: int): int {
    ms / 1000
  }

  /** The second a request asks to mark: its own time, but never a future one. */
  function Asked(r: Read): int {
    StartOfSecond(if r.through.Time? && r.through.ms < r.now then r.through.ms else r.now)
  }

  /** Without a time, or with a future one, the second of the request; else the second of the time given. */
  lemma AskedIs(r: Read)
    ensures r.through.NoTime? || r.through.BadTime? ==> 1000 * Asked(r) <= r.now < 1000 * Asked(r) + 1000
    ensures r.through.Time? && r.through.ms >= r.now ==> 1000 * Asked(r) <= r.now < 1000 * Asked(r) + 1000
    ensures r.through.Time? && r.through.ms < r.now ==> 1000 * Asked(r) <= r.through.ms < 1000 * Asked(r) + 1000
  {
  }

  function Later(marker: Option<int>, second: int): Option<int> {
    if marker.Some? && marker.value >= second then marker else Some(second)
  }

  /** `isUnread` on the stored columns. */
  predicate IsUnread(a: Alert, readAt: Option<int>) {
    IsVisible(a) && (readAt.Some? ==> a.bumped > readAt.value)
  }

  function Unread(readAt: Option<int>): Alert -> int {
    (a: Alert) => if IsUnread(a, readAt) then 1 else 0
  }

  /** `COUNT(*)` with the inbox condition and the time bound of the query. */
  method UnreadCount(alerts: seq<Alert>, readAt: Option<int>) returns (n: nat)
    ensures n == Total(alerts, Unread(readAt))
  {
    n := 0;
    for i := 0 to |alerts|
      invariant n == Total(alerts[..i], Unread(readAt))
    {
      TotalNext(alerts, Unread(readAt), i);
      var a := alerts[i];
      if (a.lifecycle in [Active, Posted] || (a.lifecycle == Resolved && !a.quietResolve)) &&
         (readAt.None? || a.bumped > readAt.value) {
        n := n + 1;
      }
    }
    assert alerts[..|alerts|] == alerts;
  }

  /** The alerts counted: active, posted, or resolved with notice, and bumped after the marker if there is one. */
  lemma UnreadAre(alerts: seq<Alert>, readAt: Option<int>)
    ensures Total(alerts, Unread(readAt)) == Total(alerts, (a: Alert) =>
              if (a.lifecycle == Active || a.lifecycle == Posted || (a.lifecycle == Resolved && !a.quietResolve)) &&
                 (readAt.Some? ==> a.bumped > readAt.value) then 1 else 0)
  {
    TotalSame(alerts, Unread(readAt), (a: Alert) =>
      if (a.lifecycle == Active || a.lifecycle == Posted || (a.lifecycle == Resolved && !a.quietResolve)) &&
         (readAt.Some? ==> a.bumped > readAt.value) then 1 else 0);
  }

  class UserState {
    var readAt: Option<int>

    constructor ()
      ensures readAt == None
    {
      readAt := None;
    }

    /** Moves the marker; `unread` is the count the response carries, or none for a malformed time. */
    method MarkRead(r: Read, alerts: seq<Alert>) returns (unread: Option<nat>)
      modifies this
      ensures r.through.BadTime? ==> unread == None && readAt == old(readAt)
      ensures !r.through.BadTime? ==> readAt == Later(old(readAt), Asked(r))
      ensures !r.through.BadTime? ==> unread.Some? && unread.value == Total(alerts, Unread(readAt))
    {
      var through := r.now;
      match r.through {
        case BadTime => return None;
        case Time(ms) => through := if ms < r.now then ms else r.now;
        case NoTime =>
      }
      if readAt.None? || through > readAt.value * 1000 {
        readAt := Some(StartOfSecond(through));
      }
      var n := UnreadCount(alerts, readAt);
      return Some(n);
    }
  }

  // ── any number of requests ─────────────────────────────────────────────

  function MarkAll(marker: Option<int>, requests: seq<Read>): Option<int> {
    if requests == [] then marker else
    var before := MarkAll(marker, requests[..|requests| - 1]);
    var r := requests[|requests| - 1];
    if r.through.BadTime? then before else Later(before, Asked(r))
  }

  predicate NotBefore(a: Option<int>, b: Option<int>) {
    b.Some? ==> a.Some? && a.value >= b.value
  }

  /** After any requests in any order the marker is the latest second any of them asked for. */
  lemma {:induction false} MarkerIsLatest(marker: Option<int>, requests: seq<Read>)
    ensures NotBefore(MarkAll(marker, requests), marker)
    ensures forall r :: r in requests && !r.through.BadTime? ==> NotBefore(MarkAll(marker, requests), Some(Asked(r)))
    ensures MarkAll(marker, requests) == marker ||
            exists r :: r in requests && !r.through.BadTime? && MarkAll(marker, requests) == Some(Asked(r))
  {
    if requests != [] {
      var c, last := requests[..|requests| - 1], requests[|requests| - 1];
      assert requests == c + [last];
      MarkerIsLatest(marker, c);
      if !last.through.BadTime? && MarkAll(marker, requests) == Some(Asked(last)) {
        assert last in requests;
      } else if MarkAll(marker, c) != marker {
        var r :| r in c && !r.through.BadTime? && MarkAll(marker, c) == Some(Asked(r));
        assert r in requests;
      }
    }
  }

  /** The badge never grows by reading. */
  lemma ReadingLowersUnread(alerts: seq<Alert>, marker: Option<int>, requests: seq<Read>)
    ensures Total(alerts, Unread(MarkAll(marker, requests))) <= Total(alerts, Unread(marker))
  {
    MarkerIsLatest(marker, requests);
    TotalMonotone(alerts, Unread(MarkAll(marker, requests)), Unread(marker));
  }

  /**
   * An alert bumped after everything was marked read shows as unread exactly when its bump falls into a
   * later second than the marker.
   */
  lemma BumpAfterReadingIsUnread(a: Alert, bumpedMs: int, now: int, marker: Option<int>)
    requires IsVisible(a) && a.bumped == StartOfSecond(bumpedMs) && now <= bumpedMs
    requires NotBefore(Some(StartOfSecond(now)), marker)
    ensures IsUnread(a, MarkAll(marker, [Read(NoTime, now)])) <==> bumpedMs >= (StartOfSecond(now) + 1) * 1000
  {
    assert [Read(NoTime, now)][..0] == [];
  }

  /** So an alert raised in the second of the marker is never shown as unread. */
  lemma SameSecondCountsAsRead(a: Alert)
    requires IsVisible(a) && a.bumped == StartOfSecond(10900)
    ensures !IsUnread(a, MarkAll(None, [Read(NoTime, 10100)]))
  {
    BumpAfterReadingIsUnread(a, 10900, 10100, None);
  }
}
