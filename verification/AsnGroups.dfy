/** Peers grouped by network operator (`groupTopAsns`) and the totals of the peer history. */
module AsnGroups {
  import opened Options
  import opened Totals
  import opened Groups
  import opened Sorting
  import opened Decimal

  /** A peer row with what the enrichment says about its address. */
  datatype Peer = Peer(ip: string, bytesIn: nat, bytesOut: nat, asn: Option<nat>, org: string, prefix: Option<string>)

  /** The map key: the number or `unknown`, a colon, the organisation. */
  function KeyOf(p: Peer): string {
    KeyString(p.asn, p.org)
  }

  function AsnText(asn: Option<nat>): string {
    if asn.Some? then Digits(asn.value) else "unknown"
  }

  function KeyString(asn: Option<nat>, org: string): string {
    AsnText(asn) + ":" + org
  }

  /** The key names the operator: no two operators share one, whatever the organisation's text. */
  lemma KeyInjective(a: Option<nat>, orgA: string, b: Option<nat>, orgB: string)
    requires KeyString(a, orgA) == KeyString(b, orgB)
    ensures a == b && orgA == orgB
  {
    NoColon(a);
    NoColon(b);
    SplitAtColon(AsnText(a), orgA, AsnText(b), orgB);
    if a.Some? && b.Some? {
      ParseDigits(a.value);
      ParseDigits(b.value);
    } else if a.Some? {
      NotUnknown(a.value);
    } else if b.Some? {
      NotUnknown(b.value);
    }
  }

  lemma NotUnknown(n: nat)
    ensures Digits(n) != "unknown"
  {
    DigitsAreDigits(n);
    assert !IsDigit("unknown"[0]);
  }

  lemma NoColon(asn: Option<nat>)
    ensures ':' !in AsnText(asn)
  {
    if asn.Some? {
      DigitsAreDigits(asn.value);
    }
  }

  lemma SplitAtColon(a: string, x: string, b: string, y: string)
    requires a + ":" + x == b + ":" + y && ':' !in a && ':' !in b
    ensures a == b && x == y
  {
    var s := a + ":" + x;
    assert s[|a|] == ':' && s[|b|] == ':';
    assert forall i :: 0 <= i < |a| ==> s[i] == a[i];
    assert forall i :: 0 <= i < |b| ==> s[i] == b[i];
    assert |a| == |b|;
    assert a == s[..|a|] == b;
    assert x == s[|a| + 1..] == y;
  }

  datatype TopAsn = TopAsn(asn: Option<nat>, org: string, prefix: Option<string>,
                           bytesIn: int, bytesOut: int, totalBytes: int, peers: seq<Peer>)

  function In(p: Peer): int {
    p.bytesIn
  }

  function Out(p: Peer): int {
    p.bytesOut
  }

  function Both(p: Peer): int {
    p.bytesIn + p.bytesOut
  }

  const NOBODY := Peer("", 0, 0, None, "", None)

  /** The group of some rows: the first row names it, the sums and peers are of all of them. */
  function GroupOf(own: seq<Peer>): TopAsn {
    var first := if own == [] then NOBODY else own[0];
    TopAsn(first.asn, first.org, first.prefix, Total(own, In), Total(own, Out), Total(own, Both), own)
  }

  function GroupsOf(peers: seq<Peer>, keys: seq<string>): seq<TopAsn> {
    if keys == [] then [] else
    GroupsOf(peers, keys[..|keys| - 1]) + [GroupOf(Pick(peers, KeyOf, keys[|keys| - 1]))]
  }

  function Ungrouped(peers: seq<Peer>): seq<TopAsn> {
    GroupsOf(peers, Keys(peers, KeyOf))
  }

  function ByTotal(g: TopAsn): int {
    -g.totalBytes
  }

  function TopAsns(peers: seq<Peer>): seq<TopAsn> {
    Sort(Ungrouped(peers), ByTotal)
  }

  // ── the loop ───────────────────────────────────────────────────────────

  function AddPeer(g: TopAsn, p: Peer): TopAsn {
    g.(bytesIn := g.bytesIn + p.bytesIn, bytesOut := g.bytesOut + p.bytesOut,
       totalBytes := g.totalBytes + p.bytesIn + p.bytesOut, peers := g.peers + [p])
  }

  function EmptyGroup(p: Peer): TopAsn {
    TopAsn(p.asn, p.org, p.prefix, 0, 0, 0, [])
  }

  lemma GroupGrows(own: seq<Peer>, p: Peer)
    ensures GroupOf(own + [p]) == AddPeer(if own == [] then EmptyGroup(p) else GroupOf(own), p)
  {
    TotalConcat(own, [p], In);
    TotalConcat(own, [p], Out);
    TotalConcat(own, [p], Both);
    TotalSingle(p, In);
    TotalSingle(p, Out);
    TotalSingle(p, Both);
  }

  lemma GroupStep(peers: seq<Peer>, p: Peer, grouped: map<string, TopAsn>, order: seq<string>)
    requires Mapped(peers, KeyOf, GroupOf, grouped, order)
    ensures var existing := if KeyOf(p) in grouped then grouped[KeyOf(p)] else EmptyGroup(p);
            Mapped(peers + [p], KeyOf, GroupOf, grouped[KeyOf(p) := AddPeer(existing, p)],
                   if KeyOf(p) in grouped then order else order + [KeyOf(p)])
  {
    var key := KeyOf(p);
    var own := Pick(peers, KeyOf, key);
    if key in grouped {
      GroupNotEmpty(peers, key);
    } else {
      MappedMissing(peers, KeyOf, GroupOf, grouped, order, key);
    }
    GroupGrows(own, p);
    MappedNext(peers, p, KeyOf, GroupOf, grouped, order, GroupOf(own + [p]));
  }

  lemma GroupNotEmpty(peers: seq<Peer>, k: string)
    requires k in Keys(peers, KeyOf)
    ensures Pick(peers, KeyOf, k) != []
  {
    var p := KeyOwner(peers, KeyOf, k);
    assert p in Pick(peers, KeyOf, k);
  }

  method CollectOne(ghost before: seq<Peer>, p: Peer, grouped: map<string, TopAsn>, order: seq<string>)
    returns (grouped': map<string, TopAsn>, order': seq<string>)
    requires Mapped(before, KeyOf, GroupOf, grouped, order)
    ensures Mapped(before + [p], KeyOf, GroupOf, grouped', order')
  {
    GroupStep(before, p, grouped, order);
    var key := KeyOf(p);
    var existing := if key in grouped then grouped[key] else EmptyGroup(p);
    order' := if key in grouped then order else order + [key];
    grouped' := grouped[key := AddPeer(existing, p)];
  }

  method Collect(peers: seq<Peer>) returns (grouped: map<string, TopAsn>, order: seq<string>)
    ensures Mapped(peers, KeyOf, GroupOf, grouped, order)
  {
    grouped, order := map[], [];
    for i := 0 to |peers|
      invariant Mapped(peers[..i], KeyOf, GroupOf, grouped, order)
    {
      PrefixNext(peers, i);
      grouped, order := CollectOne(peers[..i], peers[i], grouped, order);
    }
    assert peers[..|peers|] == peers;
  }

  /** The values of the map, in its order. */
  method Values(ghost peers: seq<Peer>, grouped: map<string, TopAsn>, order: seq<string>) returns (groups: seq<TopAsn>)
    requires forall i :: 0 <= i < |order| ==> order[i] in grouped && grouped[order[i]] == GroupOf(Pick(peers, KeyOf, order[i]))
    ensures groups == GroupsOf(peers, order)
  {
    groups := [];
    for i := 0 to |order|
      invariant groups == GroupsOf(peers, order[..i])
    {
      assert order[..i + 1][..i] == order[..i];
      groups := groups + [grouped[order[i]]];
    }
    assert order[..|order|] == order;
  }

  lemma MappedAt(peers: seq<Peer>, grouped: map<string, TopAsn>, order: seq<string>, i: nat)
    requires Mapped(peers, KeyOf, GroupOf, grouped, order) && i < |order|
    ensures order[i] in grouped && grouped[order[i]] == GroupOf(Pick(peers, KeyOf, order[i]))
  {
    assert order[i] in order;
  }

  method GroupTopAsns(peers: seq<Peer>) returns (r: seq<TopAsn>)
    ensures r == TopAsns(peers)
  {
    var grouped, order := Collect(peers);
    forall i | 0 <= i < |order|
      ensures order[i] in grouped && grouped[order[i]] == GroupOf(Pick(peers, KeyOf, order[i]))
    {
      MappedAt(peers, grouped, order, i);
    }
    var groups := Values(peers, grouped, order);
    r := Sort(groups, ByTotal);
  }

  // ── what the answer conserves ──────────────────────────────────────────

  function GroupIn(g: TopAsn): int {
    g.bytesIn
  }

  function GroupOut(g: TopAsn): int {
    g.bytesOut
  }

  function GroupBytes(g: TopAsn): int {
    g.totalBytes
  }

  function PeerCount(g: TopAsn): int {
    |g.peers|
  }

  lemma {:induction false} GroupSums(peers: seq<Peer>, keys: seq<string>)
    ensures |GroupsOf(peers, keys)| == |keys|
    ensures Total(GroupsOf(peers, keys), GroupIn) == Total(keys, GroupTotal(peers, KeyOf, In))
    ensures Total(GroupsOf(peers, keys), GroupOut) == Total(keys, GroupTotal(peers, KeyOf, Out))
    ensures Total(GroupsOf(peers, keys), GroupBytes) == Total(keys, GroupTotal(peers, KeyOf, Both))
    ensures Total(GroupsOf(peers, keys), PeerCount) == Total(keys, GroupTotal(peers, KeyOf, One))
  {
    if keys != [] {
      var c, k := keys[..|keys| - 1], keys[|keys| - 1];
      GroupSums(peers, c);
      var groups := GroupsOf(peers, c);
      assert GroupsOf(peers, keys)[..|groups|] == groups;
      TotalOne(Pick(peers, KeyOf, k));
    }
  }

  /** Bytes in, bytes out, totals and peers: the groups hold exactly those of all rows. */
  lemma GroupsConserve(peers: seq<Peer>)
    ensures Total(TopAsns(peers), GroupIn) == Total(peers, In)
    ensures Total(TopAsns(peers), GroupOut) == Total(peers, Out)
    ensures Total(TopAsns(peers), GroupBytes) == Total(peers, Both)
    ensures Total(TopAsns(peers), PeerCount) == |peers|
  {
    GroupSums(peers, Keys(peers, KeyOf));
    Partition(peers, KeyOf, In);
    Partition(peers, KeyOf, Out);
    Partition(peers, KeyOf, Both);
    Partition(peers, KeyOf, One);
    TotalOne(peers);
    SortTotal(Ungrouped(peers), ByTotal, GroupIn);
    SortTotal(Ungrouped(peers), ByTotal, GroupOut);
    SortTotal(Ungrouped(peers), ByTotal, GroupBytes);
    SortTotal(Ungrouped(peers), ByTotal, PeerCount);
  }

  /** Busiest operator first, the groups of first-seen order otherwise kept. */
  lemma BusiestFirst(peers: seq<Peer>)
    ensures multiset(TopAsns(peers)) == multiset(Ungrouped(peers))
    ensures var r := TopAsns(peers); forall i, j :: 0 <= i < j < |r| ==> r[i].totalBytes >= r[j].totalBytes
  {
    SortSorts(Ungrouped(peers), ByTotal);
    var r := TopAsns(peers);
    forall i, j | 0 <= i < j < |r|
      ensures r[i].totalBytes >= r[j].totalBytes
    {
      assert ByTotal(r[i]) <= ByTotal(r[j]);
    }
  }

  lemma {:induction false} GroupAt(peers: seq<Peer>, keys: seq<string>, i: nat)
    requires i < |keys|
    ensures |GroupsOf(peers, keys)| == |keys| && GroupsOf(peers, keys)[i] == GroupOf(Pick(peers, KeyOf, keys[i]))
  {
    var c, k := keys[..|keys| - 1], keys[|keys| - 1];
    GroupCount(peers, c);
    if i < |c| {
      GroupAt(peers, c, i);
    }
  }

  lemma {:induction false} GroupCount(peers: seq<Peer>, keys: seq<string>)
    ensures |GroupsOf(peers, keys)| == |keys|
  {
    if keys != [] {
      GroupCount(peers, keys[..|keys| - 1]);
    }
  }

  /** The `i`-th group: its operator's key is the `i`-th key, and it holds the peers of that key. */
  lemma GroupHolds(peers: seq<Peer>, i: nat)
    requires i < |Keys(peers, KeyOf)|
    ensures i < |Ungrouped(peers)|
    ensures Keys(peers, KeyOf)[i] == KeyString(Ungrouped(peers)[i].asn, Ungrouped(peers)[i].org)
    ensures forall p :: p in peers ==> (p in Ungrouped(peers)[i].peers <==> KeyOf(p) == Keys(peers, KeyOf)[i])
  {
    var keys := Keys(peers, KeyOf);
    GroupAt(peers, keys, i);
    GroupNotEmpty(peers, keys[i]);
    var own := Pick(peers, KeyOf, keys[i]);
    assert own[0] in own;
  }

  /** A partition: a group holds the rows of one operator, all of them, and two groups differ in operator. */
  lemma GroupsPartition(peers: seq<Peer>, i: nat, p: Peer)
    requires i < |Ungrouped(peers)| && p in peers
    ensures var g := Ungrouped(peers)[i];
            p in g.peers <==> p.asn == g.asn && p.org == g.org
    ensures forall j :: 0 <= j < i ==>
              Ungrouped(peers)[j].asn != Ungrouped(peers)[i].asn || Ungrouped(peers)[j].org != Ungrouped(peers)[i].org
    ensures exists j :: 0 <= j < |Ungrouped(peers)| && p in Ungrouped(peers)[j].peers
  {
    var keys, r := Keys(peers, KeyOf), Ungrouped(peers);
    GroupSums(peers, keys);
    GroupHolds(peers, i);
    if p in r[i].peers {
      KeyInjective(p.asn, p.org, r[i].asn, r[i].org);
    }
    forall j | 0 <= j < i
      ensures r[j].asn != r[i].asn || r[j].org != r[i].org
    {
      GroupHolds(peers, j);
    }
    var at :| 0 <= at < |keys| && keys[at] == KeyOf(p);
    GroupHolds(peers, at);
  }

  lemma {:induction false} FirstOfGroup(peers: seq<Peer>, k: string, f: nat)
    requires f < |peers| && KeyOf(peers[f]) == k && forall j :: 0 <= j < f ==> KeyOf(peers[j]) != k
    ensures Pick(peers, KeyOf, k) != [] && Pick(peers, KeyOf, k)[0] == peers[f]
  {
    var c := peers[..|peers| - 1];
    assert peers == c + [peers[|peers| - 1]];
    if f < |c| {
      FirstOfGroup(c, k, f);
    } else {
      PickNone(c, KeyOf, k);
    }
  }

  /**
   * A peer that is the first of its operator: its group carries the operator, that peer's prefix, and the sums of
   * the operator's peers.
   */
  lemma GroupFields(peers: seq<Peer>, f: nat)
    requires f < |peers| && forall j :: 0 <= j < f ==> peers[j].asn != peers[f].asn || peers[j].org != peers[f].org
    ensures exists g :: g in TopAsns(peers) && g.asn == peers[f].asn && g.org == peers[f].org && g.prefix == peers[f].prefix &&
              g.bytesIn == Total(peers, (p: Peer) => if p.asn == peers[f].asn && p.org == peers[f].org then p.bytesIn else 0) &&
              g.bytesOut == Total(peers, (p: Peer) => if p.asn == peers[f].asn && p.org == peers[f].org then p.bytesOut else 0) &&
              g.totalBytes == g.bytesIn + g.bytesOut
  {
    var k := KeyOf(peers[f]);
    SameOperator(peers[f]);
    FirstOfGroup(peers, k, f);
    GroupSumsAre(peers, peers[f]);
    GroupListed(peers, peers[f]);
    assert GroupOf(Pick(peers, KeyOf, k)) in TopAsns(peers);
  }

  lemma SameOperator(p: Peer)
    ensures forall q: Peer :: KeyOf(q) == KeyOf(p) <==> q.asn == p.asn && q.org == p.org
  {
    forall q: Peer | KeyOf(q) == KeyOf(p)
      ensures q.asn == p.asn && q.org == p.org
    {
      KeyInjective(q.asn, q.org, p.asn, p.org);
    }
  }

  lemma GroupSumsAre(peers: seq<Peer>, p: Peer)
    ensures var g := GroupOf(Pick(peers, KeyOf, KeyOf(p)));
            g.bytesIn == Total(peers, (q: Peer) => if q.asn == p.asn && q.org == p.org then q.bytesIn else 0) &&
            g.bytesOut == Total(peers, (q: Peer) => if q.asn == p.asn && q.org == p.org then q.bytesOut else 0) &&
            g.totalBytes == g.bytesIn + g.bytesOut
  {
    SameOperator(p);
    GroupTotalIs(peers, KeyOf, In, KeyOf(p), (q: Peer) => if q.asn == p.asn && q.org == p.org then q.bytesIn else 0);
    GroupTotalIs(peers, KeyOf, Out, KeyOf(p), (q: Peer) => if q.asn == p.asn && q.org == p.org then q.bytesOut else 0);
    BothSums(Pick(peers, KeyOf, KeyOf(p)));
  }

  lemma {:induction false} BothSums(peers: seq<Peer>)
    ensures Total(peers, Both) == Total(peers, In) + Total(peers, Out)
  {
    if peers != [] {
      BothSums(peers[..|peers| - 1]);
    }
  }

  lemma GroupListed(peers: seq<Peer>, p: Peer)
    requires p in peers
    ensures GroupOf(Pick(peers, KeyOf, KeyOf(p))) in TopAsns(peers)
  {
    var keys := Keys(peers, KeyOf);
    var i :| 0 <= i < |keys| && keys[i] == KeyOf(p);
    GroupAt(peers, keys, i);
    BusiestFirst(peers);
    assert Ungrouped(peers)[i] in multiset(Ungrouped(peers));
  }
}
