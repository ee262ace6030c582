/** The Wi-Fi overview: signal mix, SSID and AP counts over one list of connected stations. */
module Overview {
  import opened Options
  import opened Totals
  import opened Groups
  import opened Sorting

  datatype Station = Station(apId: int, ssid: Option<string>, signal: Option<int>)

  // ── signal tiers ───────────────────────────────────────────────────────

  datatype Tier = Excellent | VeryGood | Good | Fair | Weak | VeryWeak | Unknown

  const TIERS := [Excellent, VeryGood, Good, Fair, Weak, VeryWeak, Unknown]

  function TierOf(s: Station): Tier {
    if s.signal.None? then Unknown
    else if s.signal.value >= -50 then Excellent
    else if s.signal.value >= -60 then VeryGood
    else if s.signal.value >= -67 then Good
    else if s.signal.value >= -70 then Fair
    else if s.signal.value >= -80 then Weak
    else VeryWeak
  }

  /** Stations of one tier. */
  function InTier(stations: seq<Station>, tier: Tier): int {
    GroupTotal(stations, TierOf, One)(tier)
  }

  datatype Distribution = Distribution(
    excellent: int, veryGood: int, good: int, fair: int, weak: int, veryWeak: int, unknown: int)
  {
    function Sum(): int {
      excellent + veryGood + good + fair + weak + veryWeak + unknown
    }
  }

  function DistributionOf(stations: seq<Station>): Distribution {
    Distribution(InTier(stations, Excellent), InTier(stations, VeryGood), InTier(stations, Good), InTier(stations, Fair),
                 InTier(stations, Weak), InTier(stations, VeryWeak), InTier(stations, Unknown))
  }

  function Bumped(d: Distribution, tier: Tier): Distribution {
    match tier
    case Excellent => d.(excellent := d.excellent + 1)
    case VeryGood => d.(veryGood := d.veryGood + 1)
    case Good => d.(good := d.good + 1)
    case Fair => d.(fair := d.fair + 1)
    case Weak => d.(weak := d.weak + 1)
    case VeryWeak => d.(veryWeak := d.veryWeak + 1)
    case Unknown => d.(unknown := d.unknown + 1)
  }

  lemma InTierNext(stations: seq<Station>, s: Station, tier: Tier)
    ensures InTier(stations + [s], tier) == InTier(stations, tier) + if TierOf(s) == tier then 1 else 0
  {
    GroupNext(stations, s, TierOf, One, tier);
  }

  lemma OneMore(stations: seq<Station>, s: Station)
    ensures DistributionOf(stations + [s]) == Bumped(DistributionOf(stations), TierOf(s))
  {
    InTierNext(stations, s, Excellent);
    InTierNext(stations, s, VeryGood);
    InTierNext(stations, s, Good);
    InTierNext(stations, s, Fair);
    InTierNext(stations, s, Weak);
    InTierNext(stations, s, VeryWeak);
    InTierNext(stations, s, Unknown);
  }

  /** One counter per tier; each counts its stations, and together they count all. */
  method SummarizeSignalDistribution(stations: seq<Station>) returns (d: Distribution)
    ensures d == DistributionOf(stations) && d.Sum() == |stations|
  {
    d := Distribution(0, 0, 0, 0, 0, 0, 0);
    for i := 0 to |stations|
      invariant d == DistributionOf(stations[..i])
    {
      OneMore(stations[..i], stations[i]);
      PrefixNext(stations, i);
      d := Bumped(d, TierOf(stations[i]));
    }
    assert stations[..|stations|] == stations;
    TiersCover(stations);
  }

  lemma TiersCover(stations: seq<Station>)
    ensures InTier(stations, Excellent) + InTier(stations, VeryGood) + InTier(stations, Good)
            + InTier(stations, Fair) + InTier(stations, Weak) + InTier(stations, VeryWeak)
            + InTier(stations, Unknown) == |stations|
  {
    var f := GroupTotal(stations, TierOf, One);
    forall x: Tier
      ensures x in TIERS
    {
      match x
      case Excellent => assert x == TIERS[0];
      case VeryGood => assert x == TIERS[1];
      case Good => assert x == TIERS[2];
      case Fair => assert x == TIERS[3];
      case Weak => assert x == TIERS[4];
      case VeryWeak => assert x == TIERS[5];
      case Unknown => assert x == TIERS[6];
    }
    GroupsCover(stations, TierOf, One, TIERS);
    TotalOne(stations);
    SevenSum(f);
  }

  lemma SevenSum(f: Tier -> int)
    ensures Total(TIERS, f) == f(Excellent) + f(VeryGood) + f(Good) + f(Fair) + f(Weak) + f(VeryWeak) + f(Unknown)
  {
    TotalPair(Excellent, VeryGood, f);
    TotalPair(Good, Fair, f);
    TotalPair(Weak, VeryWeak, f);
    TotalSingle(Unknown, f);
    TotalConcat([Excellent, VeryGood], [Good, Fair], f);
    TotalConcat([Weak, VeryWeak], [Unknown], f);
    TotalConcat([Excellent, VeryGood] + [Good, Fair], [Weak, VeryWeak] + [Unknown], f);
    assert TIERS == ([Excellent, VeryGood] + [Good, Fair]) + ([Weak, VeryWeak] + [Unknown]);
  }

  // ── SSIDs ──────────────────────────────────────────────────────────────

  function SsidOf(s: Station): string {
    if s.ssid.Some? then s.ssid.value else "(unknown)"
  }

  function Signal(s: Station): int {
    if s.signal.Some? then s.signal.value else 0
  }

  function HasSignal(s: Station): int {
    if s.signal.Some? then 1 else 0
  }

  datatype Stats = Stats(clients: int, totalSignal: int, signalSamples: int)

  function StatsOf(own: seq<Station>): Stats {
    Stats(|own|, Total(own, Signal), Total(own, HasSignal))
  }

  function Count(current: Stats, s: Station): Stats {
    Stats(current.clients + 1, current.totalSignal + Signal(s), current.signalSamples + HasSignal(s))
  }

  lemma StatsNext(own: seq<Station>, s: Station)
    ensures StatsOf(own + [s]) == Count(StatsOf(own), s)
  {
    TotalConcat(own, [s], Signal);
    TotalConcat(own, [s], HasSignal);
    TotalSingle(s, Signal);
    TotalSingle(s, HasSignal);
  }

  lemma StatsStep(stations: seq<Station>, s: Station, stats: map<string, Stats>, names: seq<string>)
    requires Mapped(stations, SsidOf, StatsOf, stats, names)
    ensures var current := if SsidOf(s) in stats then stats[SsidOf(s)] else Stats(0, 0, 0);
            Mapped(stations + [s], SsidOf, StatsOf, stats[SsidOf(s) := Count(current, s)],
                   if SsidOf(s) in stats then names else names + [SsidOf(s)])
  {
    var own := Pick(stations, SsidOf, SsidOf(s));
    if SsidOf(s) !in stats {
      MappedMissing(stations, SsidOf, StatsOf, stats, names, SsidOf(s));
    }
    StatsNext(own, s);
    MappedNext(stations, s, SsidOf, StatsOf, stats, names, StatsOf(own + [s]));
  }

  method TallySsids(stations: seq<Station>) returns (stats: map<string, Stats>, names: seq<string>)
    ensures Mapped(stations, SsidOf, StatsOf, stats, names)
  {
    stats, names := map[], [];
    for i := 0 to |stations|
      invariant Mapped(stations[..i], SsidOf, StatsOf, stats, names)
    {
      var s := stations[i];
      PrefixNext(stations, i);
      StatsStep(stations[..i], s, stats, names);
      var ssid := SsidOf(s);
      var current := if ssid in stats then stats[ssid] else Stats(0, 0, 0);
      if ssid !in stats {
        names := names + [ssid];
      }
      stats := stats[ssid := Count(current, s)];
    }
    assert stations[..|stations|] == stations;
  }

  lemma NoStation(stations: seq<Station>, ssid: string)
    requires ssid !in Keys(stations, SsidOf)
    ensures Pick(stations, SsidOf, ssid) == []
  {
    PickNone(stations, SsidOf, ssid);
  }

  datatype Summary = Summary(ssid: string, clientCount: int, average: Option<real>)

  /** The signals that are present. */
  function Signals(s: seq<Station>): seq<int> {
    if s == [] then [] else
    Signals(s[..|s| - 1]) + if s[|s| - 1].signal.Some? then [s[|s| - 1].signal.value] else []
  }

  function Plain(n: int): int {
    n
  }

  function Mean(values: seq<int>): Option<real> {
    if values == [] then None else Some(Total(values, Plain) as real / |values| as real)
  }

  lemma {:induction false} SignalSums(s: seq<Station>)
    ensures Total(s, Signal) == Total(Signals(s), Plain)
    ensures Total(s, HasSignal) == |Signals(s)|
  {
    if s != [] {
      var c, last := s[..|s| - 1], s[|s| - 1];
      SignalSums(c);
      if last.signal.Some? {
        TotalConcat(Signals(c), [last.signal.value], Plain);
        TotalSingle(last.signal.value, Plain);
      } else {
        assert Signals(s) == Signals(c);
      }
    }
  }

  /** What the answer says about one name: its stations and the mean of exactly their non-null signals. */
  function SummaryOf(stations: seq<Station>, ssid: string): Summary {
    var own := Pick(stations, SsidOf, ssid);
    Summary(ssid, |own|, Mean(Signals(own)))
  }

  function SummariesOf(stations: seq<Station>, names: seq<string>): seq<Summary> {
    if names == [] then [] else
    SummariesOf(stations, names[..|names| - 1]) + [SummaryOf(stations, names[|names| - 1])]
  }

  function Extend(names: seq<string>, more: seq<string>): seq<string> {
    if more == [] then names else
    var r := Extend(names, more[..|more| - 1]);
    if more[|more| - 1] in r then r else r + [more[|more| - 1]]
  }

  function ByClients(s: Summary): int {
    -s.clientCount
  }

  function BySsid(collate: string -> int): Summary -> int {
    (s: Summary) => collate(s.ssid)
  }

  /** All names: of stations, then of broadcast networks, then of throughput rows. */
  function AllNames(stations: seq<Station>, networks: seq<string>, throughput: seq<string>): seq<string> {
    Extend(Extend(Keys(stations, SsidOf), networks), throughput)
  }

  method AddNames(names: seq<string>, more: seq<string>) returns (all: seq<string>)
    ensures all == Extend(names, more)
  {
    all := names;
    for i := 0 to |more|
      invariant all == Extend(names, more[..i])
    {
      assert more[..i + 1][..i] == more[..i];
      if more[i] !in all {
        all := all + [more[i]];
      }
    }
    assert more[..|more|] == more;
  }

  /** One name's summary from its counters, or zeros for a name no station carries. */
  method Summarize(ghost stations: seq<Station>, stats: map<string, Stats>, ghost order: seq<string>, ssid: string)
    returns (r: Summary)
    requires Mapped(stations, SsidOf, StatsOf, stats, order)
    ensures r == SummaryOf(stations, ssid)
  {
    var count, average := 0, None;
    SignalSums(Pick(stations, SsidOf, ssid));
    if ssid in stats {
      count := stats[ssid].clients;
      if stats[ssid].signalSamples > 0 {
        average := Some(stats[ssid].totalSignal as real / stats[ssid].signalSamples as real);
      }
    } else {
      NoStation(stations, ssid);
    }
    r := Summary(ssid, count, average);
  }

  method SummarizeNames(ghost stations: seq<Station>, stats: map<string, Stats>, ghost order: seq<string>, names: seq<string>)
    returns (r: seq<Summary>)
    requires Mapped(stations, SsidOf, StatsOf, stats, order)
    ensures r == SummariesOf(stations, names)
  {
    r := [];
    for i := 0 to |names|
      invariant r == SummariesOf(stations, names[..i])
    {
      assert names[..i + 1][..i] == names[..i];
      var summary := Summarize(stations, stats, order, names[i]);
      r := r + [summary];
    }
    assert names[..|names|] == names;
  }

  method BuildSsidSummaries(stations: seq<Station>, networks: seq<string>, throughput: seq<string>,
                            collate: string -> int)
    returns (r: seq<Summary>)
    ensures r == SortByTwo(SummariesOf(stations, AllNames(stations, networks, throughput)), ByClients, BySsid(collate))
  {
    var stats, order := TallySsids(stations);
    var names := AddNames(order, networks);
    names := AddNames(names, throughput);
    var summaries := SummarizeNames(stations, stats, order, names);
    r := SortByTwo(summaries, ByClients, BySsid(collate));
  }

  ghost predicate NoRepeat(names: seq<string>) {
    forall i, j :: 0 <= i < j < |names| ==> names[i] != names[j]
  }

  lemma {:induction false} ExtendDistinct(names: seq<string>, more: seq<string>)
    requires NoRepeat(names)
    ensures NoRepeat(Extend(names, more))
    ensures forall n :: n in Extend(names, more) <==> n in names || n in more
  {
    if more != [] {
      var c, last := more[..|more| - 1], more[|more| - 1];
      assert forall n :: n in more <==> n in c || n == last;
      ExtendDistinct(names, c);
    }
  }

  function ClientsOf(s: Summary): int {
    s.clientCount
  }

  lemma {:induction false} SummaryCounts(stations: seq<Station>, names: seq<string>)
    ensures Total(SummariesOf(stations, names), ClientsOf) == Total(names, GroupTotal(stations, SsidOf, One))
  {
    if names != [] {
      var c := names[..|names| - 1];
      SummaryCounts(stations, c);
      var summaries := SummariesOf(stations, c);
      assert SummariesOf(stations, names)[..|summaries|] == summaries;
      TotalOne(Pick(stations, SsidOf, names[|names| - 1]));
    }
  }

  /** The client counts of the SSID list add up to the connected stations, each name listed once. */
  lemma SsidsConserve(stations: seq<Station>, networks: seq<string>, throughput: seq<string>, collate: string -> int)
    ensures Total(SortByTwo(SummariesOf(stations, AllNames(stations, networks, throughput)), ByClients, BySsid(collate)),
                  ClientsOf)
            == |stations|
  {
    var names := AllNames(stations, networks, throughput);
    NamesDistinct(stations, networks, throughput);
    GroupsCover(stations, SsidOf, One, names);
    TotalOne(stations);
    SummaryCounts(stations, names);
    SortByTwoTotal(SummariesOf(stations, names), ByClients, BySsid(collate), ClientsOf);
  }

  lemma NamesDistinct(stations: seq<Station>, networks: seq<string>, throughput: seq<string>)
    ensures var names := AllNames(stations, networks, throughput);
            NoRepeat(names) && forall s :: s in stations ==> SsidOf(s) in names
  {
    ExtendDistinct(Keys(stations, SsidOf), networks);
    ExtendDistinct(Extend(Keys(stations, SsidOf), networks), throughput);
  }

  // ── access points ──────────────────────────────────────────────────────

  function ApOf(s: Station): int {
    s.apId
  }

  function Size(own: seq<Station>): int {
    |own|
  }

  function CountIn(m: map<int, int>, ap: int): int {
    if ap in m then m[ap] else 0
  }

  lemma CountStep(stations: seq<Station>, s: Station, m: map<int, int>, order: seq<int>)
    requires Mapped(stations, ApOf, Size, m, order)
    ensures Mapped(stations + [s], ApOf, Size, m[s.apId := CountIn(m, s.apId) + 1],
                   if s.apId in m then order else order + [s.apId])
  {
    if s.apId !in m {
      MappedMissing(stations, ApOf, Size, m, order, s.apId);
    }
    MappedNext(stations, s, ApOf, Size, m, order, CountIn(m, s.apId) + 1);
  }

  lemma CountFound(stations: seq<Station>, m: map<int, int>, order: seq<int>, ap: int)
    requires Mapped(stations, ApOf, Size, m, order)
    ensures CountIn(m, ap) == GroupTotal(stations, ApOf, One)(ap)
  {
    TotalOne(Pick(stations, ApOf, ap));
    if ap !in m {
      MappedMissing(stations, ApOf, Size, m, order, ap);
    }
  }

  method TallyAps(stations: seq<Station>) returns (clientsByAp: map<int, int>, ghost order: seq<int>)
    ensures Mapped(stations, ApOf, Size, clientsByAp, order)
  {
    clientsByAp, order := map[], [];
    for i := 0 to |stations|
      invariant Mapped(stations[..i], ApOf, Size, clientsByAp, order)
    {
      var s := stations[i];
      PrefixNext(stations, i);
      CountStep(stations[..i], s, clientsByAp, order);
      order := if s.apId in clientsByAp then order else order + [s.apId];
      clientsByAp := clientsByAp[s.apId := CountIn(clientsByAp, s.apId) + 1];
    }
    assert stations[..|stations|] == stations;
  }

  /** `clientsByAp`, then one count per listed access point. */
  method CountByAp(aps: seq<int>, stations: seq<Station>) returns (counts: seq<int>)
    ensures |counts| == |aps|
    ensures forall i :: 0 <= i < |aps| ==> counts[i] == GroupTotal(stations, ApOf, One)(aps[i])
  {
    var clientsByAp;
    ghost var order;
    clientsByAp, order := TallyAps(stations);
    counts := [];
    for i := 0 to |aps|
      invariant |counts| == i
      invariant forall j :: 0 <= j < i ==> counts[j] == GroupTotal(stations, ApOf, One)(aps[j])
    {
      CountFound(stations, clientsByAp, order, aps[i]);
      counts := counts + [CountIn(clientsByAp, aps[i])];
    }
  }

  ghost predicate AllListed(stations: seq<Station>, aps: seq<int>) {
    forall s :: s in stations ==> s.apId in aps
  }

  lemma {:induction false} PickShorter(stations: seq<Station>, aps: seq<int>)
    ensures |Pick(stations, Listed(ApOf, aps), true)| <= |stations|
    ensures |Pick(stations, Listed(ApOf, aps), true)| == |stations| <==> AllListed(stations, aps)
  {
    if stations != [] {
      var c, last := stations[..|stations| - 1], stations[|stations| - 1];
      assert forall s :: s in stations <==> s in c || s == last;
      PickShorter(c, aps);
      ListedIs(ApOf, aps, last);
      assert |Pick(stations, Listed(ApOf, aps), true)|
          == |Pick(c, Listed(ApOf, aps), true)| + if last.apId in aps then 1 else 0;
      assert AllListed(stations, aps) <==> AllListed(c, aps) && last.apId in aps;
    }
  }

  /** The AP counts never exceed the stations, and add up to them exactly when every AP is listed. */
  lemma ApCountsConserveIff(aps: seq<int>, stations: seq<Station>)
    requires forall i, j :: 0 <= i < j < |aps| ==> aps[i] != aps[j]
    ensures Total(aps, GroupTotal(stations, ApOf, One)) <= |stations|
    ensures Total(aps, GroupTotal(stations, ApOf, One)) == |stations|
            <==> AllListed(stations, aps)
  {
    GroupsListed(stations, ApOf, One, aps);
    TotalOne(Pick(stations, Listed(ApOf, aps), true));
    PickShorter(stations, aps);
  }

  // ── what the counters count ────────────────────────────────────────────

  /** The tiers by their limits in dBm; a station without a signal is in none of the six. */
  lemma TiersAre(stations: seq<Station>)
    ensures var d := DistributionOf(stations);
            d.excellent == Total(stations, (s: Station) => if s.signal.Some? && s.signal.value >= -50 then 1 else 0) &&
            d.veryGood == Total(stations, (s: Station) => if s.signal.Some? && -60 <= s.signal.value < -50 then 1 else 0) &&
            d.good == Total(stations, (s: Station) => if s.signal.Some? && -67 <= s.signal.value < -60 then 1 else 0) &&
            d.fair == Total(stations, (s: Station) => if s.signal.Some? && -70 <= s.signal.value < -67 then 1 else 0) &&
            d.weak == Total(stations, (s: Station) => if s.signal.Some? && -80 <= s.signal.value < -70 then 1 else 0) &&
            d.veryWeak == Total(stations, (s: Station) => if s.signal.Some? && s.signal.value < -80 then 1 else 0) &&
            d.unknown == Total(stations, (s: Station) => if s.signal.None? then 1 else 0)
  {
    GroupTotalIs(stations, TierOf, One, Excellent, (s: Station) => if s.signal.Some? && s.signal.value >= -50 then 1 else 0);
    GroupTotalIs(stations, TierOf, One, VeryGood, (s: Station) => if s.signal.Some? && -60 <= s.signal.value < -50 then 1 else 0);
    GroupTotalIs(stations, TierOf, One, Good, (s: Station) => if s.signal.Some? && -67 <= s.signal.value < -60 then 1 else 0);
    GroupTotalIs(stations, TierOf, One, Fair, (s: Station) => if s.signal.Some? && -70 <= s.signal.value < -67 then 1 else 0);
    GroupTotalIs(stations, TierOf, One, Weak, (s: Station) => if s.signal.Some? && -80 <= s.signal.value < -70 then 1 else 0);
    GroupTotalIs(stations, TierOf, One, VeryWeak, (s: Station) => if s.signal.Some? && s.signal.value < -80 then 1 else 0);
    GroupTotalIs(stations, TierOf, One, Unknown, (s: Station) => if s.signal.None? then 1 else 0);
  }

  /** A listed access point's count is the number of stations on it. */
  lemma ApCountIs(stations: seq<Station>, ap: int)
    ensures GroupTotal(stations, ApOf, One)(ap) == Total(stations, (s: Station) => if s.apId == ap then 1 else 0)
  {
    GroupTotalIs(stations, ApOf, One, ap, (s: Station) => if s.apId == ap then 1 else 0);
  }

  /** A name's entry: its stations, those without a name under `(unknown)`, and the mean of their signals. */
  lemma SummaryIs(stations: seq<Station>, ssid: string)
    ensures SummaryOf(stations, ssid).ssid == ssid
    ensures SummaryOf(stations, ssid).clientCount
            == Total(stations, (s: Station) => if ssid == (if s.ssid.Some? then s.ssid.value else "(unknown)") then 1 else 0)
    ensures var n := Total(stations, (s: Station) =>
              if ssid == (if s.ssid.Some? then s.ssid.value else "(unknown)") && s.signal.Some? then 1 else 0);
            var sum := Total(stations, (s: Station) =>
              if ssid == (if s.ssid.Some? then s.ssid.value else "(unknown)") && s.signal.Some? then s.signal.value else 0);
            SummaryOf(stations, ssid).average == if n == 0 then None else Some(sum as real / n as real)
  {
    SignalSums(Pick(stations, SsidOf, ssid));
    TotalOne(Pick(stations, SsidOf, ssid));
    GroupTotalIs(stations, SsidOf, One, ssid, (s: Station) =>
      if ssid == (if s.ssid.Some? then s.ssid.value else "(unknown)") then 1 else 0);
    GroupTotalIs(stations, SsidOf, HasSignal, ssid, (s: Station) =>
      if ssid == (if s.ssid.Some? then s.ssid.value else "(unknown)") && s.signal.Some? then 1 else 0);
    GroupTotalIs(stations, SsidOf, Signal, ssid, (s: Station) =>
      if ssid == (if s.ssid.Some? then s.ssid.value else "(unknown)") && s.signal.Some? then s.signal.value else 0);
  }

  lemma {:induction false} SummariesAt(stations: seq<Station>, names: seq<string>)
    ensures |SummariesOf(stations, names)| == |names|
    ensures forall i :: 0 <= i < |names| ==> SummariesOf(stations, names)[i] == SummaryOf(stations, names[i])
  {
    if names != [] {
      SummariesAt(stations, names[..|names| - 1]);
    }
  }

  /** A name of a station, of a broadcast network or of a throughput row. */
  predicate Occurs(stations: seq<Station>, networks: seq<string>, throughput: seq<string>, name: string) {
    (exists s :: s in stations && name == if s.ssid.Some? then s.ssid.value else "(unknown)") ||
    name in networks || name in throughput
  }

  lemma NamesAre(stations: seq<Station>, networks: seq<string>, throughput: seq<string>)
    ensures var names := AllNames(stations, networks, throughput);
            NoRepeat(names) && forall n :: n in names <==> Occurs(stations, networks, throughput, n)
  {
    ExtendDistinct(Keys(stations, SsidOf), networks);
    ExtendDistinct(Extend(Keys(stations, SsidOf), networks), throughput);
    forall n | n in Keys(stations, SsidOf)
      ensures exists s :: s in stations && SsidOf(s) == n
    {
      var s := KeyOwner(stations, SsidOf, n);
    }
  }

  function NameOf(s: Summary): string {
    s.ssid
  }

  lemma ListedOnce(stations: seq<Station>, names: seq<string>, r: seq<Summary>)
    requires NoRepeat(names) && multiset(r) == multiset(SummariesOf(stations, names))
    ensures forall e :: e in r <==> e.ssid in names && e == SummaryOf(stations, e.ssid)
    ensures forall i, j :: 0 <= i < j < |r| ==> r[i].ssid != r[j].ssid
  {
    var all := SummariesOf(stations, names);
    SummariesAt(stations, names);
    forall i | 0 <= i < |all|
      ensures NameOf(all[i]) == names[i]
    {
      assert all[i] == SummaryOf(stations, names[i]);
    }
    Reordered(all, r, NameOf);
    forall e
      ensures e in all <==> e.ssid in names && e == SummaryOf(stations, e.ssid)
    {
      if e.ssid in names && e == SummaryOf(stations, e.ssid) {
        var i :| 0 <= i < |names| && names[i] == e.ssid;
        assert all[i] == e;
      }
    }
    forall i, j | 0 <= i < j < |r|
      ensures r[i].ssid != r[j].ssid
    {
      assert NameOf(r[i]) != NameOf(r[j]);
    }
  }

  /** The list has the entry of every name that occurs, once. */
  lemma SsidsListed(stations: seq<Station>, networks: seq<string>, throughput: seq<string>, collate: string -> int)
    ensures var r := SortByTwo(SummariesOf(stations, AllNames(stations, networks, throughput)), ByClients, BySsid(collate));
            (forall e :: e in r <==> Occurs(stations, networks, throughput, e.ssid) && e == SummaryOf(stations, e.ssid)) &&
            forall i, j :: 0 <= i < j < |r| ==> r[i].ssid != r[j].ssid
  {
    var names := AllNames(stations, networks, throughput);
    var all := SummariesOf(stations, names);
    NamesAre(stations, networks, throughput);
    SortByTwoSorts(all, ByClients, BySsid(collate));
    ListedOnce(stations, names, SortByTwo(all, ByClients, BySsid(collate)));
  }

  /** Most clients first, equal counts by name in the locale's order. */
  lemma SsidsOrdered(stations: seq<Station>, networks: seq<string>, throughput: seq<string>, collate: string -> int)
    ensures var r := SortByTwo(SummariesOf(stations, AllNames(stations, networks, throughput)), ByClients, BySsid(collate));
            forall i, j :: 0 <= i < j < |r| ==>
              r[i].clientCount > r[j].clientCount ||
              (r[i].clientCount == r[j].clientCount && collate(r[i].ssid) <= collate(r[j].ssid))
  {
    var all := SummariesOf(stations, AllNames(stations, networks, throughput));
    var r := SortByTwo(all, ByClients, BySsid(collate));
    SortByTwoSorts(all, ByClients, BySsid(collate));
    forall i, j | 0 <= i < j < |r|
      ensures r[i].clientCount > r[j].clientCount ||
              (r[i].clientCount == r[j].clientCount && collate(r[i].ssid) <= collate(r[j].ssid))
    {
      assert ByClients(r[i]) <= ByClients(r[j]);
      if ByClients(r[i]) == ByClients(r[j]) {
        assert BySsid(collate)(r[i]) <= BySsid(collate)(r[j]);
      }
    }
  }
}
