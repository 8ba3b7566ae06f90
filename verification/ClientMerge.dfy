/** The client list of the console: DHCP leases, ARP entries, WiFi stations and neighbor entries
    merged by MAC address, or by IP address where there is no MAC. The merge fills a mutable
    insertion-ordered table; it is held against a declarative last-writer reading. */
module ClientMerge {
  import opened Prelude
  import opened Text

  // ---------------------------------------------------------------- the snapshot's records

  /** A JavaScript property value. A property may be present and still be `undefined`. */
  datatype Js = Undefined | Null | Text(text: string) | Number(number: int)

  datatype Field =
    | Hostname | Mac | Ipv4 | Ipv6 | Interface | Signal | RxBytes | TxBytes | Minutes | Ssid | LeaseExpires | ArpState

  datatype Source = Dhcp | Arp | Wifi | Neighbor

  datatype Lease = Lease(hostname: string, ip: string, mac: Option<string>, expires: Option<string>, iface: Option<string>)

  datatype ArpEntry = ArpEntry(ip: string, mac: string, iface: string, state: string)

  datatype Station = Station(
    mac: string, ssid: Option<string>, signal: Option<int>, rx: Option<int>, tx: Option<int>,
    minutes: Option<int>, iface: Option<string>)

  datatype NeighborEntry = NeighborEntry(ip: string, mac: Option<string>, iface: Option<string>)

  datatype Snapshot = Snapshot(
    leases: seq<Lease>, arp: seq<ArpEntry>, stations: seq<Station>, neighbors: seq<NeighborEntry>)

  function OrNull(text: Option<string>): Js {
    if text.Some? then Text(text.value) else Null
  }

  function NumberOrNull(n: Option<int>): Js {
    if n.Some? then Number(n.value) else Null
  }

  function Lower(s: string): string {
    Map(LowerAscii, s)
  }

  function DropSeparators(s: string): string {
    if s == "" then "" else (if s[0] == ':' || s[0] == '-' then "" else [s[0]]) + DropSeparators(s[1..])
  }

  /** Twelve hexadecimal digits when the text has them; otherwise the text in lower case. */
  function NormalizeMac(mac: Option<string>): Option<string> {
    if mac.None? || mac.value == "" then None
    else
      var stripped := DropSeparators(Lower(mac.value));
      if |stripped| == 12 && forall i :: 0 <= i < 12 ==> IsHex(stripped[i]) then Some(stripped)
      else Some(Lower(mac.value))
  }

  type Values = map<Field, Js>

  /** One call of `merge`. */
  datatype Record = Record(key: string, source: Source, values: Values)

  function KeyOr(mac: Option<string>, ip: string): string {
    if NormalizeMac(mac).Some? then NormalizeMac(mac).value else ip
  }

  function LeaseRecord(l: Lease): Record {
    var values: Values := map[
      Hostname := if l.hostname == "" then Undefined else Text(l.hostname),
      Ipv4 := Text(l.ip), Interface := OrNull(l.iface), LeaseExpires := OrNull(l.expires)];
    Record(KeyOr(l.mac, l.ip), Dhcp, if NormalizeMac(l.mac).Some? then values[Mac := OrNull(l.mac)] else values)
  }

  function ArpRecord(a: ArpEntry): Record {
    Record(KeyOr(Some(a.mac), a.ip), Arp,
           map[Ipv4 := Text(a.ip), Mac := Text(a.mac), Interface := Text(a.iface), ArpState := Text(a.state)])
  }

  /** A station without a MAC is passed over. */
  function StationRecords(s: Station): seq<Record> {
    match NormalizeMac(Some(s.mac))
    case None => []
    case Some(key) =>
      [Record(key, Wifi, map[
        Mac := Text(s.mac), Signal := NumberOrNull(s.signal), RxBytes := NumberOrNull(s.rx),
        TxBytes := NumberOrNull(s.tx), Minutes := NumberOrNull(s.minutes), Ssid := OrNull(s.ssid),
        Interface := OrNull(s.iface)])]
  }

  function NeighborRecord(n: NeighborEntry): Record {
    Record(KeyOr(n.mac, n.ip), Neighbor, map[Ipv6 := Text(n.ip), Mac := OrNull(n.mac), Interface := OrNull(n.iface)])
  }

  /** All records in the order in which they are merged. */
  function Records(s: Snapshot): seq<Record> {
    Map(LeaseRecord, s.leases) + Map(ArpRecord, s.arp)
    + Flatten(Map(StationRecords, s.stations)) + Map(NeighborRecord, s.neighbors)
  }

  // ---------------------------------------------------------------- the merge table

  datatype MergeState = MergeState(sources: set<Source>, values: Values)

  /** An insertion-ordered map: `order` lists the keys as they first came. */
  datatype Table = Table(order: seq<string>, states: map<string, MergeState>)

  const EMPTY := Table([], map[])

  function MergeOne(t: Table, r: Record): Table {
    if r.key in t.states then
      var s := t.states[r.key];
      t.(states := t.states[r.key := MergeState(s.sources + {r.source}, s.values + r.values)])
    else
      Table(t.order + [r.key], t.states[r.key := MergeState({r.source}, r.values)])
  }

  function MergeAll(t: Table, records: seq<Record>): Table
    decreases |records|
  {
    if records == [] then t else MergeOne(MergeAll(t, records[..|records| - 1]), records[|records| - 1])
  }

  lemma {:induction false} MergeConcat(t: Table, a: seq<Record>, b: seq<Record>)
    ensures MergeAll(t, a + b) == MergeAll(MergeAll(t, a), b)
    decreases |b|
  {
    if b == [] {
      assert a + b == a;
    } else {
      MergeConcat(t, a, b[..|b| - 1]);
      assert (a + b)[..|a + b| - 1] == a + b[..|b| - 1];
    }
  }

  lemma MergeSnoc(a: seq<Record>, r: Record)
    ensures MergeAll(EMPTY, a + [r]) == MergeOne(MergeAll(EMPTY, a), r)
  {
    assert (a + [r])[..|a|] == a;
  }

  // ---------------------------------------------------------------- the declarative reading

  predicate Mentions(records: seq<Record>, key: string) {
    exists i :: 0 <= i < |records| && records[i].key == key
  }

  /** Record i is the last one for `key` whose source writes `field`. */
  predicate LastWriter(records: seq<Record>, key: string, field: Field, i: int) {
    && 0 <= i < |records|
    && records[i].key == key && field in records[i].values
    && forall j :: i < j < |records| && records[j].key == key ==> field !in records[j].values
  }

  predicate SourceHolds(records: seq<Record>, key: string, source: Source) {
    exists i :: 0 <= i < |records| && records[i].key == key && records[i].source == source
  }

  /** The first record with key `x` comes before every record with key `y`. */
  predicate Precedes(records: seq<Record>, x: string, y: string) {
    exists i :: 0 <= i < |records| && records[i].key == x && forall j :: 0 <= j <= i ==> records[j].key != y
  }

  /** Keys are listed once each, exactly those some record has, by first appearance. */
  ghost predicate OrderIsRight(t: Table, records: seq<Record>) {
    && (forall k :: k in t.states <==> k in t.order)
    && (forall a, b :: 0 <= a < b < |t.order| ==> Precedes(records, t.order[a], t.order[b]))
    && (forall a, b :: 0 <= a < b < |t.order| ==> t.order[a] != t.order[b])
    && (forall i :: 0 <= i < |records| ==> records[i].key in t.order)
    && (forall a :: 0 <= a < |t.order| ==> Mentions(records, t.order[a]))
  }

  ghost predicate SourcesAreRight(sources: set<Source>, records: seq<Record>, key: string) {
    forall source :: source in sources <==> SourceHolds(records, key, source)
  }

  ghost predicate ValuesAreRight(values: Values, records: seq<Record>, key: string) {
    && (forall field, i :: LastWriter(records, key, field, i) ==>
          field in values && values[field] == records[i].values[field])
    && (forall field :: field in values ==> exists i :: LastWriter(records, key, field, i))
  }

  ghost predicate StatesAreRight(t: Table, records: seq<Record>) {
    forall key :: key in t.states ==>
      SourcesAreRight(t.states[key].sources, records, key) && ValuesAreRight(t.states[key].values, records, key)
  }

  lemma PrecedesStays(records: seq<Record>, r: Record, x: string, y: string)
    requires Precedes(records, x, y)
    ensures Precedes(records + [r], x, y)
  {
    var i :| 0 <= i < |records| && records[i].key == x && forall j :: 0 <= j <= i ==> records[j].key != y;
    assert (records + [r])[i].key == x;
  }

  lemma NewKeyComesLast(records: seq<Record>, r: Record, x: string)
    requires Mentions(records, x) && !Mentions(records, r.key)
    ensures Precedes(records + [r], x, r.key)
  {
    var i :| 0 <= i < |records| && records[i].key == x;
    assert (records + [r])[i].key == x;
    forall j | 0 <= j <= i
      ensures (records + [r])[j].key != r.key
    {
      assert (records + [r])[j] == records[j];
    }
  }

  lemma MentionsMore(records: seq<Record>, r: Record, key: string)
    ensures Mentions(records + [r], key) <==> Mentions(records, key) || key == r.key
  {
    var all := records + [r];
    assert all[|records|] == r;
    if i :| 0 <= i < |records| && records[i].key == key {
      assert all[i].key == key;
    }
    if i :| 0 <= i < |all| && all[i].key == key {
      assert i < |records| ==> records[i].key == key;
    }
  }

  lemma OrderStep(t: Table, records: seq<Record>, r: Record)
    requires OrderIsRight(t, records)
    ensures OrderIsRight(MergeOne(t, r), records + [r])
  {
    hide Precedes, Mentions;
    var t', all := MergeOne(t, r), records + [r];
    forall a | 0 <= a < |t'.order|
      ensures Mentions(all, t'.order[a])
    {
      MentionsMore(records, r, t'.order[a]);
    }
    forall a, b | 0 <= a < b < |t'.order|
      ensures Precedes(all, t'.order[a], t'.order[b])
    {
      if b < |t.order| {
        PrecedesStays(records, r, t.order[a], t.order[b]);
      } else {
        KeysAreMentioned(t, records, r.key);
        NewKeyComesLast(records, r, t.order[a]);
      }
    }
    assert t.order <= t'.order && r.key in t'.order;
    forall i | 0 <= i < |all|
      ensures all[i].key in t'.order
    {
      assert i < |records| ==> all[i] == records[i];
    }
  }

  lemma KeysAreMentioned(t: Table, records: seq<Record>, key: string)
    requires OrderIsRight(t, records)
    ensures key in t.states <==> Mentions(records, key)
  {
    hide Precedes;
  }

  lemma SourcesStep(t: Table, records: seq<Record>, r: Record, key: string, source: Source)
    requires OrderIsRight(t, records) && StatesAreRight(t, records)
    requires key in MergeOne(t, r).states
    ensures source in MergeOne(t, r).states[key].sources <==> SourceHolds(records + [r], key, source)
  {
    var all := records + [r];
    if SourceHolds(records, key, source) {
      var i :| 0 <= i < |records| && records[i].key == key && records[i].source == source;
      assert all[i].key == key && all[i].source == source && key in t.states;
    }
    if SourceHolds(all, key, source) && !SourceHolds(records, key, source) {
      var i :| 0 <= i < |all| && all[i].key == key && all[i].source == source;
      assert i == |records|;
    }
    if r.key == key && r.source == source {
      assert all[|records|].key == key && all[|records|].source == source;
    }
  }

  lemma LastWriterStep(records: seq<Record>, r: Record, key: string, field: Field, i: int)
    ensures LastWriter(records + [r], key, field, i) <==>
      if r.key == key && field in r.values then i == |records| else LastWriter(records, key, field, i)
  {
    var all := records + [r];
    assert all[|records|] == r;
    if 0 <= i < |records| {
      assert all[i] == records[i];
    }
    if LastWriter(all, key, field, i) && i < |records| {
      assert forall j :: i < j < |records| ==> all[j] == records[j];
    }
  }

  lemma ValuesStep(t: Table, records: seq<Record>, r: Record, key: string)
    requires OrderIsRight(t, records) && StatesAreRight(t, records)
    requires key in MergeOne(t, r).states
    ensures ValuesAreRight(MergeOne(t, r).states[key].values, records + [r], key)
  {
    var all, values := records + [r], MergeOne(t, r).states[key].values;
    if key in t.states {
      assert ValuesAreRight(t.states[key].values, records, key);
    }
    forall field, i | LastWriter(all, key, field, i)
      ensures field in values && values[field] == all[i].values[field]
    {
      LastWriterStep(records, r, key, field, i);
      if i < |records| {
        assert records[i].key in t.order && all[i] == records[i];
      }
    }
    forall field | field in values
      ensures exists i :: LastWriter(all, key, field, i)
    {
      if r.key == key && field in r.values {
        LastWriterStep(records, r, key, field, |records|);
      } else {
        var i :| LastWriter(records, key, field, i);
        LastWriterStep(records, r, key, field, i);
      }
    }
  }

  lemma StatesStep(t: Table, records: seq<Record>, r: Record)
    requires OrderIsRight(t, records) && StatesAreRight(t, records)
    ensures StatesAreRight(MergeOne(t, r), records + [r])
  {
    hide MergeOne, OrderIsRight, ValuesAreRight, SourceHolds;
    forall key | key in MergeOne(t, r).states
      ensures SourcesAreRight(MergeOne(t, r).states[key].sources, records + [r], key)
      ensures ValuesAreRight(MergeOne(t, r).states[key].values, records + [r], key)
    {
      forall source
        ensures source in MergeOne(t, r).states[key].sources <==> SourceHolds(records + [r], key, source)
      {
        SourcesStep(t, records, r, key, source);
      }
      ValuesStep(t, records, r, key);
    }
  }

  lemma NothingMerged()
    ensures OrderIsRight(EMPTY, []) && StatesAreRight(EMPTY, [])
  {}

  lemma {:induction false} MergeIsLastWriterWins(records: seq<Record>)
    ensures OrderIsRight(MergeAll(EMPTY, records), records)
    ensures StatesAreRight(MergeAll(EMPTY, records), records)
    decreases |records|
  {
    hide OrderIsRight, StatesAreRight, MergeOne;
    NothingMerged();
    if records != [] {
      var before, r := records[..|records| - 1], records[|records| - 1];
      MergeIsLastWriterWins(before);
      OrderStep(MergeAll(EMPTY, before), before, r);
      StatesStep(MergeAll(EMPTY, before), before, r);
      assert before + [r] == records;
    }
  }

  // ---------------------------------------------------------------- the client list

  datatype Client = Client(
    key: string, id: Js, values: Values, ipv4: Js, ipv6: Js,
    online: bool, leaseActive: Option<bool>, medium: string, sources: seq<Source>)

  /** What the list takes from elsewhere: whether a lease is active at this time, and the medium
      for a MAC key, WiFi membership and interface. */
  datatype Env = Env(leaseActive: Js -> bool, medium: (Option<string>, bool, Js) -> string)

  /** `value ?? null`, for a property that may be missing. */
  function Get(values: Values, field: Field): Js {
    if field in values && !values[field].Undefined? then values[field] else Null
  }

  function Coalesce(a: Js, b: Js): Js {
    if a.Null? || a.Undefined? then b else a
  }

  function Lookup(index: map<string, string>, key: string): Js {
    if key in index then Text(index[key]) else Null
  }

  function MacText(mac: Js): Option<string> {
    if mac.Text? then Some(mac.text) else None
  }

  predicate Reachable(state: Js) {
    state.Text? && (state.text == "complete" || state.text == "reachable" || state.text == "REACHABLE")
  }

  /** Address to the key of the last client that has it as its own. */
  function IndexBy(t: Table, field: Field, keys: seq<string>): map<string, string>
    requires forall i :: 0 <= i < |keys| ==> keys[i] in t.states
    decreases |keys|
  {
    if keys == [] then map[]
    else
      var before, key := IndexBy(t, field, keys[..|keys| - 1]), keys[|keys| - 1];
      var own := Get(t.states[key].values, field);
      if own.Text? && own.text != "" then before[own.text := key] else before
  }

  function ClientFor(env: Env, t: Table, byIpv4: map<string, string>, byIpv6: map<string, string>, key: string): Client
    requires key in t.states
  {
    var state := t.states[key];
    var v := state.values;
    var mac := Get(v, Mac);
    var ipv4 := Coalesce(Get(v, Ipv4), Lookup(byIpv4, key));
    var ipv6 := Coalesce(Get(v, Ipv6), Lookup(byIpv6, key));
    Client(
      key,
      Coalesce(mac, Coalesce(ipv4, Coalesce(ipv6, Text("unknown")))),
      map f: Field | f in v :: Get(v, f),
      ipv4, ipv6,
      Wifi in state.sources || Reachable(Get(v, ArpState)),
      if LeaseExpires in v && !v[LeaseExpires].Undefined? then Some(env.leaseActive(Get(v, LeaseExpires))) else None,
      env.medium(NormalizeMac(MacText(mac)), Wifi in state.sources, Get(v, Interface)),
      SortedSources(state.sources))
  }

  /** Alphabetical, as the source names sort. */
  function SortedSources(sources: set<Source>): seq<Source> {
    (if Arp in sources then [Arp] else []) + (if Dhcp in sources then [Dhcp] else [])
    + (if Neighbor in sources then [Neighbor] else []) + (if Wifi in sources then [Wifi] else [])
  }

  function Build(env: Env, s: Snapshot): seq<Client> {
    var t := MergeAll(EMPTY, Records(s));
    MergeIsLastWriterWins(Records(s));
    var byIpv4, byIpv6 := IndexBy(t, Ipv4, t.order), IndexBy(t, Ipv6, t.order);
    seq(|t.order|, i requires 0 <= i < |t.order| => ClientFor(env, t, byIpv4, byIpv6, t.order[i]))
  }

  /** The mutable table of the build. */
  class MergeMap {
    var order: seq<string>
    var states: map<string, MergeState>

    constructor ()
      ensures Contents() == EMPTY
    {
      order, states := [], map[];
    }

    function Contents(): Table
      reads this
    {
      Table(order, states)
    }

    method Merge(r: Record)
      modifies this
      ensures Contents() == MergeOne(old(Contents()), r)
    {
      if r.key in states {
        var existing := states[r.key];
        states := states[r.key := MergeState(existing.sources + {r.source}, existing.values + r.values)];
      } else {
        order := order + [r.key];
        states := states[r.key := MergeState({r.source}, r.values)];
      }
    }
  }

  method MergeRecords(table: MergeMap, records: seq<Record>)
    modifies table
    ensures table.Contents() == MergeAll(old(table.Contents()), records)
  {
    for n := 0 to |records|
      invariant table.Contents() == MergeAll(old(table.Contents()), records[..n])
    {
      assert records[..n + 1][..n] == records[..n];
      table.Merge(records[n]);
    }
    assert records[..|records|] == records;
  }

  /** The four merge loops. */
  method MergeSnapshot(s: Snapshot) returns (table: MergeMap)
    ensures fresh(table)
    ensures table.Contents() == MergeAll(EMPTY, Records(s))
  {
    hide LeaseRecord, ArpRecord, StationRecords, NeighborRecord, MergeAll;
    table := new MergeMap();
    ghost var leases, arp := Map(LeaseRecord, s.leases), Map(ArpRecord, s.arp);
    ghost var stations := Flatten(Map(StationRecords, s.stations));
    MergeRecords(table, Map(LeaseRecord, s.leases));
    MergeRecords(table, Map(ArpRecord, s.arp));
    MergeConcat(EMPTY, leases, arp);
    MergeRecords(table, Flatten(Map(StationRecords, s.stations)));
    MergeConcat(EMPTY, leases + arp, stations);
    MergeRecords(table, Map(NeighborRecord, s.neighbors));
    MergeConcat(EMPTY, leases + arp + stations, Map(NeighborRecord, s.neighbors));
  }

  /** The loop that fills an address index. */
  method IndexAddresses(table: MergeMap, field: Field) returns (index: map<string, string>)
    requires forall i :: 0 <= i < |table.order| ==> table.order[i] in table.states
    ensures index == IndexBy(table.Contents(), field, table.order)
  {
    var keys := table.order;
    index := map[];
    for n := 0 to |keys|
      invariant index == IndexBy(table.Contents(), field, keys[..n])
    {
      assert keys[..n + 1][..n] == keys[..n];
      var own := Get(table.states[keys[n]].values, field);
      if own.Text? && own.text != "" {
        index := index[own.text := keys[n]];
      }
    }
    assert keys[..|keys|] == keys;
  }

  method BuildClients(env: Env, s: Snapshot) returns (clients: seq<Client>)
    ensures clients == Build(env, s)
  {
    hide Records, ClientFor, MergeAll, IndexBy;
    var table := MergeSnapshot(s);
    MergeIsLastWriterWins(Records(s));
    var byIpv4 := IndexAddresses(table, Ipv4);
    var byIpv6 := IndexAddresses(table, Ipv6);
    var t := table.Contents();
    clients := [];
    for n := 0 to |table.order|
      invariant |clients| == n
      invariant forall i :: 0 <= i < n ==> clients[i] == ClientFor(env, t, byIpv4, byIpv6, t.order[i])
    {
      clients := clients + [ClientFor(env, t, byIpv4, byIpv6, table.order[n])];
    }
  }

  // ---------------------------------------------------------------- what the list says

  /** The value a field has for a key: what its last writer wrote, null when nobody did. */
  ghost predicate Reads(records: seq<Record>, key: string, field: Field, value: Js) {
    if exists i :: LastWriter(records, key, field, i)
    then forall i :: LastWriter(records, key, field, i) ==>
           value == (if records[i].values[field].Undefined? then Null else records[i].values[field])
    else value == Null
  }

  lemma SortedSourcesAreTheSet(sources: set<Source>, source: Source)
    ensures source in SortedSources(sources) <==> source in sources
  {
    match source
    case Dhcp =>
    case Arp =>
    case Wifi =>
    case Neighbor =>
  }

  lemma ClientReadsItsRecords(env: Env, s: Snapshot, n: nat)
    requires n < |Build(env, s)|
    ensures var c, records := Build(env, s)[n], Records(s);
      && (forall source :: source in c.sources <==> SourceHolds(records, c.key, source))
      && (forall field :: Reads(records, c.key, field, Get(c.values, field)))
      && (c.online <==> SourceHolds(records, c.key, Wifi) || Reachable(Get(c.values, ArpState)))
  {
    hide MergeAll, Records, LastWriter, IndexBy, SortedSources, SourceHolds, Reachable;
    var c, records := Build(env, s)[n], Records(s);
    MergeIsLastWriterWins(records);
    var t := MergeAll(EMPTY, records);
    var state := t.states[c.key];
    assert c.key == t.order[n];
    forall source
      ensures source in c.sources <==> SourceHolds(records, c.key, source)
    {
      SortedSourcesAreTheSet(state.sources, source);
    }
    forall field
      ensures Reads(records, c.key, field, Get(c.values, field))
    {
      if exists i :: LastWriter(records, c.key, field, i) {
        assert field in state.values;
      }
    }
  }

  /** One client per key of a record and none besides, in order of first appearance; its sources are exactly
      those holding a record with the key; every field reads what its last writer wrote in
      the order leases, ARP, stations, neighbors; it is online exactly when a station
      record has the key or the last ARP state is reachable. */
  lemma ClientsAreTheMerge(env: Env, s: Snapshot)
    ensures var clients, records := Build(env, s), Records(s);
      && (forall a, b :: 0 <= a < b < |clients| ==>
            clients[a].key != clients[b].key && Precedes(records, clients[a].key, clients[b].key))
      && (forall key :: Mentions(records, key) <==> exists n :: 0 <= n < |clients| && clients[n].key == key)
      && (forall n :: 0 <= n < |clients| ==>
            var c := clients[n];
            && (forall source :: source in c.sources <==> SourceHolds(records, c.key, source))
            && (forall field :: Reads(records, c.key, field, Get(c.values, field)))
            && (c.online <==> SourceHolds(records, c.key, Wifi) || Reachable(Get(c.values, ArpState))))
  {
    hide MergeAll, Records, Reads, IndexBy, SourceHolds, Reachable, Get, Precedes;
    var clients, records := Build(env, s), Records(s);
    MergeIsLastWriterWins(records);
    var t := MergeAll(EMPTY, records);
    assert forall n :: 0 <= n < |clients| ==> clients[n].key == t.order[n];
    forall key | Mentions(records, key)
      ensures exists n :: 0 <= n < |clients| && clients[n].key == key
    {
      var n :| 0 <= n < |t.order| && t.order[n] == key;
      assert clients[n].key == key;
    }
    forall n | 0 <= n < |clients|
      ensures var c := clients[n];
        && (forall source :: source in c.sources <==> SourceHolds(records, c.key, source))
        && (forall field :: Reads(records, c.key, field, Get(c.values, field)))
        && (c.online <==> SourceHolds(records, c.key, Wifi) || Reachable(Get(c.values, ArpState)))
    {
      ClientReadsItsRecords(env, s, n);
    }
  }

  predicate OwnsAddress(t: Table, field: Field, key: string, address: string) {
    key in t.states && Get(t.states[key].values, field) == Text(address)
  }

  /** Key i is the last of the list that owns the address. */
  predicate LastOwner(t: Table, field: Field, keys: seq<string>, address: string, i: int) {
    && 0 <= i < |keys| && OwnsAddress(t, field, keys[i], address)
    && forall j :: i < j < |keys| ==> !OwnsAddress(t, field, keys[j], address)
  }

  lemma IndexUnfold(t: Table, field: Field, keys: seq<string>, address: string)
    requires keys != [] && forall i :: 0 <= i < |keys| ==> keys[i] in t.states
    ensures var n, before, index := |keys| - 1, IndexBy(t, field, keys[..|keys| - 1]), IndexBy(t, field, keys);
      if address != "" && OwnsAddress(t, field, keys[n], address)
      then address in index && index[address] == keys[n]
      else (address in index <==> address in before) && (address in index ==> index[address] == before[address])
  {
    hide Get;
  }

  lemma LastOwnerSnoc(t: Table, field: Field, keys: seq<string>, address: string, i: int)
    requires keys != []
    ensures LastOwner(t, field, keys, address, i) <==>
      if OwnsAddress(t, field, keys[|keys| - 1], address) then i == |keys| - 1
      else LastOwner(t, field, keys[..|keys| - 1], address, i)
  {
    hide OwnsAddress;
  }

  lemma {:induction false} OwnerHasLast(t: Table, field: Field, keys: seq<string>, address: string)
    ensures (exists i :: 0 <= i < |keys| && OwnsAddress(t, field, keys[i], address))
      <==> exists i :: LastOwner(t, field, keys, address, i)
    decreases |keys|
  {
    hide OwnsAddress;
    if keys != [] {
      var n := |keys| - 1;
      OwnerHasLast(t, field, keys[..n], address);
      if i :| 0 <= i < |keys| && OwnsAddress(t, field, keys[i], address) {
        if OwnsAddress(t, field, keys[n], address) {
          assert LastOwner(t, field, keys, address, n);
        } else {
          assert OwnsAddress(t, field, keys[..n][i], address);
          var j :| LastOwner(t, field, keys[..n], address, j);
          LastOwnerSnoc(t, field, keys, address, j);
        }
      }
    }
  }

  lemma {:induction false} IndexHasLastOwner(t: Table, field: Field, keys: seq<string>, address: string)
    requires forall i :: 0 <= i < |keys| ==> keys[i] in t.states
    ensures var index := IndexBy(t, field, keys);
      && (address in index ==> exists i :: LastOwner(t, field, keys, address, i) && keys[i] == index[address])
      && (address in index <==> address != "" && exists i :: LastOwner(t, field, keys, address, i))
    decreases |keys|
  {
    if keys != [] {
      hide IndexBy, OwnsAddress;
      var n := |keys| - 1;
      IndexHasLastOwner(t, field, keys[..n], address);
      IndexUnfold(t, field, keys, address);
      forall i
        ensures LastOwner(t, field, keys, address, i) <==>
          if OwnsAddress(t, field, keys[n], address) then i == n else LastOwner(t, field, keys[..n], address, i)
      {
        LastOwnerSnoc(t, field, keys, address, i);
      }
      assert OwnsAddress(t, field, keys[n], address) ==> LastOwner(t, field, keys, address, n);
    }
  }

  lemma IndexFindsLastOwner(t: Table, field: Field, keys: seq<string>, address: string)
    requires forall i :: 0 <= i < |keys| ==> keys[i] in t.states
    ensures var index := IndexBy(t, field, keys);
      && (address in index ==> exists i :: LastOwner(t, field, keys, address, i) && keys[i] == index[address])
      && (address in index <==> address != "" && exists i :: 0 <= i < |keys| && OwnsAddress(t, field, keys[i], address))
  {
    hide IndexBy, OwnsAddress, LastOwner;
    OwnerHasLast(t, field, keys, address);
    IndexHasLastOwner(t, field, keys, address);
  }

  /** A client shows its own address or, without one, the key of the last client that owns the
      client's key as an address of that family. */
  ghost predicate ShowsAddress(t: Table, field: Field, key: string, shown: Js)
    requires key in t.states
  {
    var own := Get(t.states[key].values, field);
    var borrowed := own.Null? && key != "" && exists i :: 0 <= i < |t.order| && OwnsAddress(t, field, t.order[i], key);
    && (shown == own <==> !borrowed)
    && (borrowed ==> exists i :: LastOwner(t, field, t.order, key, i) && shown == Text(t.order[i]))
  }

  lemma FallbackShowsAddress(t: Table, field: Field, key: string)
    requires key in t.states && forall i :: 0 <= i < |t.order| ==> t.order[i] in t.states
    ensures ShowsAddress(t, field, key, Coalesce(Get(t.states[key].values, field), Lookup(IndexBy(t, field, t.order), key)))
  {
    hide IndexBy;
    IndexFindsLastOwner(t, field, t.order, key);
  }

  /** Where the address fallback goes wrong. The index maps an address to the KEY of its owner,
      so a client without an address of its own is given another client's key as its
      address: exactly when its key is, as text, an address another client owns. In all
      other cases the list shows the client's own address or none. */
  lemma AddressIsOwnUnlessKeyIsAnothersAddress(env: Env, s: Snapshot, n: nat)
    requires n < |Build(env, s)|
    ensures var c, t := Build(env, s)[n], MergeAll(EMPTY, Records(s));
      && c.key in t.states
      && ShowsAddress(t, Ipv4, c.key, c.ipv4)
      && ShowsAddress(t, Ipv6, c.key, c.ipv6)
  {
    hide LeaseRecord, ArpRecord, StationRecords, NeighborRecord, MergeAll, Records, IndexBy, ShowsAddress, Coalesce, Lookup;
    var t := MergeAll(EMPTY, Records(s));
    MergeIsLastWriterWins(Records(s));
    var key := t.order[n];
    assert Build(env, s)[n].key == key;
    FallbackShowsAddress(t, Ipv4, key);
    FallbackShowsAddress(t, Ipv6, key);
  }

  /** Every snapshot of this shape shows it: a lease without a MAC for an IPv6 address, and the
      neighbor entry of that address with its MAC. The lease's client has no IPv6 address of its
      own and is given the neighbor's MAC key for one. */
  lemma LeaseGetsMacKeyAsAddress(env: Env, a: Lease, b: NeighborEntry)
    requires a.mac == None && a.ip != "" && b.ip == a.ip
    requires NormalizeMac(b.mac).Some? && NormalizeMac(b.mac).value != a.ip
    ensures var clients := Build(env, Snapshot([a], [], [], [b]));
      |clients| == 2 && clients[0].key == a.ip && clients[0].ipv6 == Text(NormalizeMac(b.mac).value)
  {
    hide MergeAll, Records, NormalizeMac, IndexBy;
    var s := Snapshot([a], [], [], [b]);
    var t := MergeAll(EMPTY, Records(s));
    ExampleTable(a, b);
    var c := Build(env, s)[0];
    assert c.key == t.order[0];
    AddressIsOwnUnlessKeyIsAnothersAddress(env, s, 0);
    assert OwnsAddress(t, Ipv6, t.order[1], a.ip) && !OwnsAddress(t, Ipv6, t.order[0], a.ip);
    var i :| LastOwner(t, Ipv6, t.order, a.ip, i) && c.ipv6 == Text(t.order[i]);
    assert i == 1;
  }

  lemma ExampleTable(a: Lease, b: NeighborEntry)
    requires a.mac == None && NormalizeMac(b.mac).Some? && NormalizeMac(b.mac).value != a.ip
    ensures var t, key := MergeAll(EMPTY, Records(Snapshot([a], [], [], [b]))), NormalizeMac(b.mac).value;
      && t.order == [a.ip, key]
      && t.states.Keys == {a.ip, key}
      && t.states[a.ip].values == LeaseRecord(a).values
      && t.states[key].values == NeighborRecord(b).values
  {
    hide MergeAll, NormalizeMac;
    NoMacNoKey();
    NoStations();
    assert Records(Snapshot([a], [], [], [b])) == [LeaseRecord(a), NeighborRecord(b)];
    TwoRecords(LeaseRecord(a), NeighborRecord(b));
  }

  lemma TwoRecords(a: Record, b: Record)
    requires a.key != b.key
    ensures MergeAll(EMPTY, [a, b]) ==
      Table([a.key, b.key], map[a.key := MergeState({a.source}, a.values), b.key := MergeState({b.source}, b.values)])
  {
    MergeSnoc([], a);
    MergeSnoc([a], b);
    assert [] + [a] == [a] && [a] + [b] == [a, b];
  }

  lemma NoMacNoKey()
    ensures NormalizeMac(None) == None
  {}

  lemma NoStations()
    ensures Flatten(Map(StationRecords, [])) == []
  {}

  /** Twelve hexadecimal digits are their own key. */
  lemma PlainMacIsItsKey(mac: string)
    requires |mac| == 12 && forall i :: 0 <= i < 12 ==> IsHex(mac[i])
    ensures NormalizeMac(Some(mac)) == Some(mac)
    ensures Digits(mac) == mac
  {
    assert Lower(mac) == mac;
    HexHasNoSeparators(mac);
  }

  lemma {:induction false} HexHasNoSeparators(s: string)
    requires forall i :: 0 <= i < |s| ==> IsHex(s[i])
    ensures DropSeparators(s) == s
  {
    if s != "" {
      HexHasNoSeparators(s[1..]);
    }
  }

  /** A MAC's characters without case and separators. */
  function Digits(mac: string): string {
    DropSeparators(Lower(mac))
  }

  predicate IsMac(mac: string) {
    |Digits(mac)| == 12 && forall i :: 0 <= i < 12 ==> IsHex(Digits(mac)[i])
  }

  /** A text gets the key of a MAC address exactly when the two differ at most in case and
      separators. */
  lemma MacKeyIgnoresCaseAndSeparators(mac: string, other: string)
    requires IsMac(mac)
    ensures NormalizeMac(Some(mac)) == NormalizeMac(Some(other)) <==> Digits(mac) == Digits(other)
  {
    assert mac != "";
    var key := Digits(mac);
    PlainMacIsItsKey(key);
    if NormalizeMac(Some(other)) == Some(key) && Lower(other) == key {
      assert Digits(other) == DropSeparators(key);
      HexHasNoSeparators(key);
    }
  }

  /** A key is its own key, whatever it was made from. */
  lemma MacKeyIsItsOwnKey(mac: string)
    requires mac != ""
    ensures NormalizeMac(NormalizeMac(Some(mac))) == NormalizeMac(Some(mac))
  {
    var key := NormalizeMac(Some(mac)).value;
    if IsMac(mac) {
      PlainMacIsItsKey(key);
    } else {
      assert Lower(key) == key;
      assert Digits(key) == Digits(mac);
    }
  }

  predicate Lowered(text: string, lower: string) {
    && |lower| == |text|
    && forall i :: 0 <= i < |text| ==> lower[i] == if 'A' <= text[i] <= 'Z' then text[i] + 32 as char else text[i]
  }

  /** The text is these characters with colons and dashes between them, before and after. */
  predicate SpreadOut(text: string, chars: string)
    decreases |text|
  {
    if text == "" then chars == ""
    else
      var n := |text| - 1;
      if text[n] in {':', '-'} then SpreadOut(text[..n], chars)
      else chars != "" && chars[|chars| - 1] == text[n] && SpreadOut(text[..n], chars[..|chars| - 1])
  }

  lemma {:induction false} SpreadCons(ch: char, text: string, chars: string)
    requires SpreadOut(text, chars)
    ensures SpreadOut([ch] + text, if ch in {':', '-'} then chars else [ch] + chars)
    decreases |text|
  {
    var whole := [ch] + text;
    if text == "" {
      assert whole[..0] == "" && [ch] + chars == [ch] && [ch][..0] == "";
    } else {
      var n := |text| - 1;
      assert whole[..n + 1] == [ch] + text[..n] && whole[n + 1] == text[n];
      if text[n] in {':', '-'} {
        SpreadCons(ch, text[..n], chars);
      } else {
        SpreadCons(ch, text[..n], chars[..|chars| - 1]);
        assert ([ch] + chars)[..|chars|] == [ch] + chars[..|chars| - 1];
      }
    }
  }

  lemma {:induction false} DroppedIsSpreadOut(s: string)
    ensures SpreadOut(s, DropSeparators(s))
  {
    if s != "" {
      hide SpreadOut;
      DroppedIsSpreadOut(s[1..]);
      SpreadCons(s[0], s[1..], DropSeparators(s[1..]));
      assert [s[0]] + s[1..] == s && "" + DropSeparators(s[1..]) == DropSeparators(s[1..]);
    }
  }

  predicate KeyIsFrom(mac: string, lower: string, chars: string) {
    if |chars| == 12 && forall i :: 0 <= i < 12 ==> '0' <= chars[i] <= '9' || 'a' <= chars[i] <= 'f'
    then NormalizeMac(Some(mac)) == Some(chars)
    else NormalizeMac(Some(mac)) == Some(lower)
  }

  /** The key of a text: nothing for nothing; the twelve hexadecimal digits that are left of the text
      in lower case without its colons and dashes; or, if that leaves anything else, the text in
      lower case. */
  lemma MacKeyIsItsDigits(mac: string)
    ensures NormalizeMac(None) == None && NormalizeMac(Some("")) == None
    ensures mac != "" ==> exists lower, chars :: Lowered(mac, lower) && SpreadOut(lower, chars) && KeyIsFrom(mac, lower, chars)
  {
    var lower := Lower(mac);
    DroppedIsSpreadOut(lower);
    assert Lowered(mac, lower) && SpreadOut(lower, DropSeparators(lower));
    assert mac != "" ==> KeyIsFrom(mac, lower, DropSeparators(lower));
  }
}
