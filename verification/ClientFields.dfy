/** What every client of the list shows, said of the snapshot's own leases, ARP entries, stations and
    neighbor entries: which of them decides each property. */
module ClientFields {
  import opened Prelude
  import opened Text
  import opened ClientMerge

  // ---------------------------------------------------------------- the last entry with a key

  /** An entry's key is its MAC key, or its address when it has no MAC. */
  predicate HasKey(mac: Option<string>, ip: string, key: string) {
    match NormalizeMac(mac)
    case Some(macKey) => key == macKey
    case None => key == ip
  }

  predicate LastSuch<T>(items: seq<T>, such: T -> bool, n: int) {
    0 <= n < |items| && such(items[n]) && forall m :: n < m < |items| ==> !such(items[m])
  }

  /** The last entry of its kind. */
  function LastOf<T>(items: seq<T>, such: T -> bool): (last: Option<T>)
    ensures last.None? ==> forall n :: 0 <= n < |items| ==> !such(items[n])
    ensures last.Some? ==> exists n :: LastSuch(items, such, n) && items[n] == last.value
    decreases |items|
  {
    if items == [] then None
    else
      var n := |items| - 1;
      if such(items[n]) then
        assert LastSuch(items, such, n);
        Some(items[n])
      else
        var before := LastOf(items[..n], such);
        assert before.Some? ==> forall m :: LastSuch(items[..n], such, m) ==> LastSuch(items, such, m);
        before
  }

  function LeaseOf(key: string): Lease -> bool {
    (l: Lease) => HasKey(l.mac, l.ip, key)
  }

  /** Leases with a MAC whose key is `key`. */
  function MacLeaseOf(key: string): Lease -> bool {
    (l: Lease) => NormalizeMac(l.mac) == Some(key)
  }

  function ArpOf(key: string): ArpEntry -> bool {
    (a: ArpEntry) => HasKey(Some(a.mac), a.ip, key)
  }

  function StationOf(key: string): Station -> bool {
    (s: Station) => NormalizeMac(Some(s.mac)) == Some(key)
  }

  function NeighborOf(key: string): NeighborEntry -> bool {
    (n: NeighborEntry) => HasKey(n.mac, n.ip, key)
  }

  // ---------------------------------------------------------------- the last value written

  function LastValue(records: seq<Record>, key: string, field: Field): Option<Js>
    decreases |records|
  {
    if records == [] then None
    else
      var r := records[|records| - 1];
      if r.key == key && field in r.values then Some(r.values[field]) else LastValue(records[..|records| - 1], key, field)
  }

  function Shown(value: Option<Js>): Js {
    if value.None? || value.value.Undefined? then Null else value.value
  }

  lemma {:induction false} LastValueIsLastWriters(records: seq<Record>, key: string, field: Field)
    ensures LastValue(records, key, field).None? ==> forall i :: !LastWriter(records, key, field, i)
    ensures LastValue(records, key, field).Some? ==>
      exists i :: LastWriter(records, key, field, i) && LastValue(records, key, field) == Some(records[i].values[field])
    decreases |records|
  {
    if records != [] {
      var n := |records| - 1;
      var before, r := records[..n], records[n];
      assert before + [r] == records;
      LastValueIsLastWriters(before, key, field);
      forall i
        ensures LastWriter(records, key, field, i) <==>
          if r.key == key && field in r.values then i == n else LastWriter(before, key, field, i)
      {
        LastWriterStep(before, r, key, field, i);
      }
      if r.key == key && field in r.values {
        assert LastWriter(records, key, field, n);
      }
    }
  }

  lemma ReadsLastValue(records: seq<Record>, key: string, field: Field, value: Js)
    requires Reads(records, key, field, value)
    ensures value == Shown(LastValue(records, key, field))
  {
    hide LastWriter;
    LastValueIsLastWriters(records, key, field);
  }

  lemma {:induction false} LastValueConcat(a: seq<Record>, b: seq<Record>, key: string, field: Field)
    ensures LastValue(a + b, key, field) == if LastValue(b, key, field).Some? then LastValue(b, key, field) else LastValue(a, key, field)
    decreases |b|
  {
    if b == [] {
      assert a + b == a;
    } else {
      var n := |b| - 1;
      assert (a + b)[..|a + b| - 1] == a + b[..n];
      LastValueConcat(a, b[..n], key, field);
    }
  }

  function Applied<T>(last: Option<T>, value: T -> Js): Option<Js> {
    if last.Some? then Some(value(last.value)) else None
  }

  /** Where each entry makes one record. */
  lemma {:induction false} LastValueOfEntries<T>(items: seq<T>, record: T -> Record, such: T -> bool, value: T -> Js, key: string, field: Field)
    requires forall x :: such(x) <==> record(x).key == key && field in record(x).values
    requires forall x :: such(x) ==> record(x).values[field] == value(x)
    ensures LastValue(Map(record, items), key, field) == Applied(LastOf(items, such), value)
    decreases |items|
  {
    if items != [] {
      var n := |items| - 1;
      LastValueOfEntries(items[..n], record, such, value, key, field);
      assert Map(record, items)[..n] == Map(record, items[..n]);
    }
  }

  /** Where an entry makes one record or none. */
  lemma {:induction false} LastValueOfSome<T>(items: seq<T>, records: T -> seq<Record>, such: T -> bool, value: T -> Js, key: string, field: Field)
    requires forall x :: |records(x)| <= 1
    requires forall x :: such(x) <==> records(x) != [] && records(x)[0].key == key && field in records(x)[0].values
    requires forall x :: such(x) ==> records(x)[0].values[field] == value(x)
    ensures LastValue(Flatten(Map(records, items)), key, field) == Applied(LastOf(items, such), value)
    decreases |items|
  {
    if items != [] {
      var n := |items| - 1;
      LastValueOfSome(items[..n], records, such, value, key, field);
      assert Map(records, items) == Map(records, items[..n]) + [records(items[n])];
      FlattenSnoc(Map(records, items[..n]), records(items[n]));
      LastValueConcat(Flatten(Map(records, items[..n])), records(items[n]), key, field);
      OneRecord(records(items[n]), key, field);
    }
  }

  lemma OneRecord(records: seq<Record>, key: string, field: Field)
    requires |records| <= 1
    ensures LastValue(records, key, field) ==
      if records != [] && records[0].key == key && field in records[0].values then Some(records[0].values[field]) else None
  {
    if records != [] {
      assert records[..0] == [];
    }
  }

  // ---------------------------------------------------------------- source by source

  /** What the four sources say about one field, the later one first. */
  lemma LastValueBySource(s: Snapshot, key: string, field: Field)
    ensures var leases, arp := LastValue(Map(LeaseRecord, s.leases), key, field), LastValue(Map(ArpRecord, s.arp), key, field);
      var stations := LastValue(Flatten(Map(StationRecords, s.stations)), key, field);
      var neighbors := LastValue(Map(NeighborRecord, s.neighbors), key, field);
      LastValue(Records(s), key, field) ==
        if neighbors.Some? then neighbors else if stations.Some? then stations else if arp.Some? then arp else leases
  {
    hide LeaseRecord, ArpRecord, StationRecords, NeighborRecord, LastValue;
    var leases, arp := Map(LeaseRecord, s.leases), Map(ArpRecord, s.arp);
    var stations, neighbors := Flatten(Map(StationRecords, s.stations)), Map(NeighborRecord, s.neighbors);
    LastValueConcat(leases, arp, key, field);
    LastValueConcat(leases + arp, stations, key, field);
    LastValueConcat(leases + arp + stations, neighbors, key, field);
  }

  /** A source that does not write the field says nothing. */
  lemma {:induction false} NothingFromEntries<T>(items: seq<T>, record: T -> Record, key: string, field: Field)
    requires forall x :: field !in record(x).values
    ensures LastValue(Map(record, items), key, field) == None
    decreases |items|
  {
    if items != [] {
      NothingFromEntries(items[..|items| - 1], record, key, field);
      assert Map(record, items)[..|items| - 1] == Map(record, items[..|items| - 1]);
    }
  }

  lemma NothingFromStation(s: Station, key: string, field: Field)
    requires field in {Hostname, Ipv4, Ipv6, LeaseExpires, ArpState}
    ensures LastValue(StationRecords(s), key, field) == None
  {
    hide NormalizeMac, LastValue;
    OneRecord(StationRecords(s), key, field);
  }

  lemma {:induction false} NothingFromStations(items: seq<Station>, key: string, field: Field)
    requires field in {Hostname, Ipv4, Ipv6, LeaseExpires, ArpState}
    ensures LastValue(Flatten(Map(StationRecords, items)), key, field) == None
    decreases |items|
  {
    if items != [] {
      hide StationRecords, LastValue, Flatten;
      var n := |items| - 1;
      NothingFromStations(items[..n], key, field);
      assert Map(StationRecords, items) == Map(StationRecords, items[..n]) + [StationRecords(items[n])];
      FlattenSnoc(Map(StationRecords, items[..n]), StationRecords(items[n]));
      LastValueConcat(Flatten(Map(StationRecords, items[..n])), StationRecords(items[n]), key, field);
      NothingFromStation(items[n], key, field);
    }
  }

  lemma LeasesSay(leases: seq<Lease>, key: string)
    ensures var records := Map(LeaseRecord, leases);
      var last := LastOf(leases, LeaseOf(key));
      && LastValue(records, key, Hostname) == Applied(last, (l: Lease) => if l.hostname == "" then Undefined else Text(l.hostname))
      && LastValue(records, key, LeaseExpires) == Applied(last, (l: Lease) => OrNull(l.expires))
      && LastValue(records, key, Interface) == Applied(last, (l: Lease) => OrNull(l.iface))
      && LastValue(records, key, Ipv4) == Applied(last, (l: Lease) => Text(l.ip))
      && LastValue(records, key, Mac) == Applied(LastOf(leases, MacLeaseOf(key)), (l: Lease) => OrNull(l.mac))
      && (forall field :: field in {Ipv6, Signal, RxBytes, TxBytes, Minutes, Ssid, ArpState} ==> LastValue(records, key, field) == None)
  {
    hide NormalizeMac, LastValue, LastOf, Flatten, Applied;
    LastValueOfEntries(leases, LeaseRecord, LeaseOf(key), (l: Lease) => if l.hostname == "" then Undefined else Text(l.hostname), key, Hostname);
    LastValueOfEntries(leases, LeaseRecord, LeaseOf(key), (l: Lease) => OrNull(l.expires), key, LeaseExpires);
    LastValueOfEntries(leases, LeaseRecord, LeaseOf(key), (l: Lease) => OrNull(l.iface), key, Interface);
    LastValueOfEntries(leases, LeaseRecord, LeaseOf(key), (l: Lease) => Text(l.ip), key, Ipv4);
    LastValueOfEntries(leases, LeaseRecord, MacLeaseOf(key), (l: Lease) => OrNull(l.mac), key, Mac);
    forall field | field in {Ipv6, Signal, RxBytes, TxBytes, Minutes, Ssid, ArpState}
      ensures LastValue(Map(LeaseRecord, leases), key, field) == None
    {
      NothingFromEntries(leases, LeaseRecord, key, field);
    }
  }

  lemma ArpSays(arp: seq<ArpEntry>, key: string)
    ensures var records := Map(ArpRecord, arp);
      var last := LastOf(arp, ArpOf(key));
      && LastValue(records, key, ArpState) == Applied(last, (a: ArpEntry) => Text(a.state))
      && LastValue(records, key, Interface) == Applied(last, (a: ArpEntry) => Text(a.iface))
      && LastValue(records, key, Ipv4) == Applied(last, (a: ArpEntry) => Text(a.ip))
      && LastValue(records, key, Mac) == Applied(last, (a: ArpEntry) => Text(a.mac))
      && (forall field :: field in {Hostname, Ipv6, Signal, RxBytes, TxBytes, Minutes, Ssid, LeaseExpires} ==> LastValue(records, key, field) == None)
  {
    hide NormalizeMac, LastValue, LastOf, Flatten, Applied;
    LastValueOfEntries(arp, ArpRecord, ArpOf(key), (a: ArpEntry) => Text(a.state), key, ArpState);
    LastValueOfEntries(arp, ArpRecord, ArpOf(key), (a: ArpEntry) => Text(a.iface), key, Interface);
    LastValueOfEntries(arp, ArpRecord, ArpOf(key), (a: ArpEntry) => Text(a.ip), key, Ipv4);
    LastValueOfEntries(arp, ArpRecord, ArpOf(key), (a: ArpEntry) => Text(a.mac), key, Mac);
    forall field | field in {Hostname, Ipv6, Signal, RxBytes, TxBytes, Minutes, Ssid, LeaseExpires}
      ensures LastValue(Map(ArpRecord, arp), key, field) == None
    {
      NothingFromEntries(arp, ArpRecord, key, field);
    }
  }

  lemma StationsSay(stations: seq<Station>, key: string)
    ensures var records := Flatten(Map(StationRecords, stations));
      var last := LastOf(stations, StationOf(key));
      && LastValue(records, key, Ssid) == Applied(last, (s: Station) => OrNull(s.ssid))
      && LastValue(records, key, Interface) == Applied(last, (s: Station) => OrNull(s.iface))
      && LastValue(records, key, Mac) == Applied(last, (s: Station) => Text(s.mac))
      && (forall field :: field in {Hostname, Ipv4, Ipv6, LeaseExpires, ArpState} ==> LastValue(records, key, field) == None)
  {
    hide NormalizeMac, LastValue, LastOf, Flatten, Applied;
    LastValueOfSome(stations, StationRecords, StationOf(key), (s: Station) => OrNull(s.ssid), key, Ssid);
    LastValueOfSome(stations, StationRecords, StationOf(key), (s: Station) => OrNull(s.iface), key, Interface);
    LastValueOfSome(stations, StationRecords, StationOf(key), (s: Station) => Text(s.mac), key, Mac);
    forall field | field in {Hostname, Ipv4, Ipv6, LeaseExpires, ArpState}
      ensures LastValue(Flatten(Map(StationRecords, stations)), key, field) == None
    {
      NothingFromStations(stations, key, field);
    }
  }

  lemma StationsSayNumbers(stations: seq<Station>, key: string)
    ensures var records := Flatten(Map(StationRecords, stations));
      var last := LastOf(stations, StationOf(key));
      && LastValue(records, key, Signal) == Applied(last, (s: Station) => NumberOrNull(s.signal))
      && LastValue(records, key, RxBytes) == Applied(last, (s: Station) => NumberOrNull(s.rx))
      && LastValue(records, key, TxBytes) == Applied(last, (s: Station) => NumberOrNull(s.tx))
      && LastValue(records, key, Minutes) == Applied(last, (s: Station) => NumberOrNull(s.minutes))
  {
    hide NormalizeMac, LastValue, LastOf, Flatten, Applied;
    LastValueOfSome(stations, StationRecords, StationOf(key), (s: Station) => NumberOrNull(s.signal), key, Signal);
    LastValueOfSome(stations, StationRecords, StationOf(key), (s: Station) => NumberOrNull(s.rx), key, RxBytes);
    LastValueOfSome(stations, StationRecords, StationOf(key), (s: Station) => NumberOrNull(s.tx), key, TxBytes);
    LastValueOfSome(stations, StationRecords, StationOf(key), (s: Station) => NumberOrNull(s.minutes), key, Minutes);
  }

  lemma NeighborsSay(neighbors: seq<NeighborEntry>, key: string)
    ensures var records := Map(NeighborRecord, neighbors);
      var last := LastOf(neighbors, NeighborOf(key));
      && LastValue(records, key, Ipv6) == Applied(last, (n: NeighborEntry) => Text(n.ip))
      && LastValue(records, key, Mac) == Applied(last, (n: NeighborEntry) => OrNull(n.mac))
      && LastValue(records, key, Interface) == Applied(last, (n: NeighborEntry) => OrNull(n.iface))
      && (forall field :: field in {Hostname, Ipv4, Signal, RxBytes, TxBytes, Minutes, Ssid, LeaseExpires, ArpState} ==> LastValue(records, key, field) == None)
  {
    hide NormalizeMac, LastValue, LastOf, Flatten, Applied;
    LastValueOfEntries(neighbors, NeighborRecord, NeighborOf(key), (n: NeighborEntry) => Text(n.ip), key, Ipv6);
    LastValueOfEntries(neighbors, NeighborRecord, NeighborOf(key), (n: NeighborEntry) => OrNull(n.mac), key, Mac);
    LastValueOfEntries(neighbors, NeighborRecord, NeighborOf(key), (n: NeighborEntry) => OrNull(n.iface), key, Interface);
    forall field | field in {Hostname, Ipv4, Signal, RxBytes, TxBytes, Minutes, Ssid, LeaseExpires, ArpState}
      ensures LastValue(Map(NeighborRecord, neighbors), key, field) == None
    {
      NothingFromEntries(neighbors, NeighborRecord, key, field);
    }
  }

  // ---------------------------------------------------------------- what a client shows

  predicate ShowsText(value: Js, text: Option<string>) {
    match text
    case Some(t) => value == Text(t)
    case None => value == Null
  }

  predicate ShowsNumber(value: Js, number: Option<int>) {
    match number
    case Some(n) => value == Number(n)
    case None => value == Null
  }

  /** Properties that stations alone write: the last station with the key decides, and without one
      they are null. */
  predicate ShowsStation(s: Snapshot, key: string, values: Values) {
    var station := LastOf(s.stations, StationOf(key));
    && ShowsNumber(Get(values, Signal), if station.Some? then station.value.signal else None)
    && ShowsNumber(Get(values, RxBytes), if station.Some? then station.value.rx else None)
    && ShowsNumber(Get(values, TxBytes), if station.Some? then station.value.tx else None)
    && ShowsNumber(Get(values, Minutes), if station.Some? then station.value.minutes else None)
    && ShowsText(Get(values, Ssid), if station.Some? then station.value.ssid else None)
  }

  /** Properties that one of the other kinds alone writes. */
  predicate ShowsOwn(s: Snapshot, key: string, values: Values) {
    var lease, arp := LastOf(s.leases, LeaseOf(key)), LastOf(s.arp, ArpOf(key));
    var neighbor := LastOf(s.neighbors, NeighborOf(key));
    && ShowsText(Get(values, ArpState), if arp.Some? then Some(arp.value.state) else None)
    && ShowsText(Get(values, Ipv6), if neighbor.Some? then Some(neighbor.value.ip) else None)
    && ShowsText(Get(values, Hostname), if lease.Some? && lease.value.hostname != "" then Some(lease.value.hostname) else None)
    && ShowsText(Get(values, LeaseExpires), if lease.Some? then lease.value.expires else None)
  }

  /** Properties that several kinds write: the last entry of the last kind that has one decides,
      neighbors before stations before ARP entries before leases. */
  predicate ShowsShared(s: Snapshot, key: string, values: Values) {
    var lease, arp := LastOf(s.leases, LeaseOf(key)), LastOf(s.arp, ArpOf(key));
    var station, neighbor := LastOf(s.stations, StationOf(key)), LastOf(s.neighbors, NeighborOf(key));
    var macLease := LastOf(s.leases, MacLeaseOf(key));
    && ShowsText(Get(values, Ipv4),
                 if arp.Some? then Some(arp.value.ip) else if lease.Some? then Some(lease.value.ip) else None)
    && ShowsText(Get(values, Mac),
                 if neighbor.Some? then neighbor.value.mac else if station.Some? then Some(station.value.mac)
                 else if arp.Some? then Some(arp.value.mac) else if macLease.Some? then macLease.value.mac else None)
    && ShowsText(Get(values, Interface),
                 if neighbor.Some? then neighbor.value.iface else if station.Some? then station.value.iface
                 else if arp.Some? then Some(arp.value.iface) else if lease.Some? then lease.value.iface else None)
  }

  /** Every property of every client is that of the entry of the snapshot that decides it. */
  lemma ClientShowsTheLastEntries(env: Env, s: Snapshot, n: nat)
    requires n < |Build(env, s)|
    ensures var c := Build(env, s)[n];
      ShowsStation(s, c.key, c.values) && ShowsOwn(s, c.key, c.values) && ShowsShared(s, c.key, c.values)
  {
    hide Records, Build, Reads, LastValue, LastOf;
    var c := Build(env, s)[n];
    ClientReadsItsRecords(env, s, n);
    forall field
      ensures Get(c.values, field) == Shown(LastValue(Records(s), c.key, field))
    {
      ReadsLastValue(Records(s), c.key, field, Get(c.values, field));
      LastValueBySource(s, c.key, field);
    }
    StationIsShown(s, c.key, c.values);
    OwnIsShown(s, c.key, c.values);
    SharedIsShown(s, c.key, c.values);
  }

  /** What only stations write only stations say. */
  lemma StationSays(s: Snapshot, key: string, field: Field)
    requires field in {Signal, RxBytes, TxBytes, Minutes, Ssid}
    ensures LastValue(Records(s), key, field) == LastValue(Flatten(Map(StationRecords, s.stations)), key, field)
  {
    hide Records, LastValue, LastOf;
    LeasesSay(s.leases, key);
    ArpSays(s.arp, key);
    NeighborsSay(s.neighbors, key);
    LastValueBySource(s, key, field);
  }

  lemma StationIsShown(s: Snapshot, key: string, values: Values)
    requires forall field :: Get(values, field) == Shown(LastValue(Records(s), key, field))
    ensures ShowsStation(s, key, values)
  {
    hide Records, LastValue, LastOf, Get;
    StationsSay(s.stations, key);
    StationsSayNumbers(s.stations, key);
    StationSays(s, key, Signal);
    StationSays(s, key, RxBytes);
    StationSays(s, key, TxBytes);
    StationSays(s, key, Minutes);
    StationSays(s, key, Ssid);
  }

  lemma OwnIsShown(s: Snapshot, key: string, values: Values)
    requires forall field :: Get(values, field) == Shown(LastValue(Records(s), key, field))
    ensures ShowsOwn(s, key, values)
  {
    hide Records, LastValue, LastOf, Get;
    LeasesSay(s.leases, key);
    ArpSays(s.arp, key);
    StationsSay(s.stations, key);
    NeighborsSay(s.neighbors, key);
    LastValueBySource(s, key, ArpState);
    LastValueBySource(s, key, Ipv6);
    LastValueBySource(s, key, Hostname);
    LastValueBySource(s, key, LeaseExpires);
  }

  lemma SharedIsShown(s: Snapshot, key: string, values: Values)
    requires forall field :: Get(values, field) == Shown(LastValue(Records(s), key, field))
    ensures ShowsShared(s, key, values)
  {
    hide Records, LastValue, LastOf, Get;
    LeasesSay(s.leases, key);
    ArpSays(s.arp, key);
    StationsSay(s.stations, key);
    NeighborsSay(s.neighbors, key);
    LastValueBySource(s, key, Ipv4);
    LastValueBySource(s, key, Mac);
    LastValueBySource(s, key, Interface);
  }

  // ---------------------------------------------------------------- which clients there are

  lemma RecordsOfStations(stations: seq<Station>, r: Record)
    ensures r in Flatten(Map(StationRecords, stations)) <==> exists m :: 0 <= m < |stations| && r in StationRecords(stations[m])
  {
    InFlatten(Map(StationRecords, stations), r);
  }

  lemma {:induction false} InFlatten<T>(chunks: seq<seq<T>>, x: T)
    ensures x in Flatten(chunks) <==> exists m :: 0 <= m < |chunks| && x in chunks[m]
    decreases |chunks|
  {
    if chunks != [] {
      InFlatten(chunks[1..], x);
      if m :| 0 <= m < |chunks[1..]| && x in chunks[1..][m] {
        assert x in chunks[m + 1];
      }
      if m :| 0 <= m < |chunks| && x in chunks[m] {
        assert m > 0 ==> chunks[1..][m - 1] == chunks[m];
      }
    }
  }

  /** Which kinds of entry a key has. */
  predicate HasEntry(s: Snapshot, key: string, source: Source) {
    match source
    case Dhcp => LastOf(s.leases, LeaseOf(key)).Some?
    case Arp => LastOf(s.arp, ArpOf(key)).Some?
    case Wifi => LastOf(s.stations, StationOf(key)).Some?
    case Neighbor => LastOf(s.neighbors, NeighborOf(key)).Some?
  }

  lemma EntryHasRecord(s: Snapshot, key: string, source: Source) returns (r: Record)
    requires HasEntry(s, key, source)
    ensures r in Records(s) && r.key == key && r.source == source
  {
    hide NormalizeMac;
    match source
    case Dhcp =>
      var n :| LastSuch(s.leases, LeaseOf(key), n);
      r := LeaseRecord(s.leases[n]);
      assert r == Map(LeaseRecord, s.leases)[n];
    case Arp =>
      var n :| LastSuch(s.arp, ArpOf(key), n);
      r := ArpRecord(s.arp[n]);
      assert r == Map(ArpRecord, s.arp)[n];
    case Wifi =>
      var n :| LastSuch(s.stations, StationOf(key), n);
      r := StationRecords(s.stations[n])[0];
      RecordsOfStations(s.stations, r);
    case Neighbor =>
      var n :| LastSuch(s.neighbors, NeighborOf(key), n);
      r := NeighborRecord(s.neighbors[n]);
      assert r == Map(NeighborRecord, s.neighbors)[n];
  }

  lemma RecordHasEntry(s: Snapshot, r: Record)
    requires r in Records(s)
    ensures HasEntry(s, r.key, r.source)
  {
    hide NormalizeMac, LastOf;
    RecordsOfStations(s.stations, r);
    if r in Map(LeaseRecord, s.leases) {
      var n :| 0 <= n < |s.leases| && r == LeaseRecord(s.leases[n]);
      assert LeaseOf(r.key)(s.leases[n]);
    } else if r in Map(ArpRecord, s.arp) {
      var n :| 0 <= n < |s.arp| && r == ArpRecord(s.arp[n]);
      assert ArpOf(r.key)(s.arp[n]);
    } else if r in Map(NeighborRecord, s.neighbors) {
      var n :| 0 <= n < |s.neighbors| && r == NeighborRecord(s.neighbors[n]);
      assert NeighborOf(r.key)(s.neighbors[n]);
    } else {
      var n :| 0 <= n < |s.stations| && r in StationRecords(s.stations[n]);
      assert StationOf(r.key)(s.stations[n]);
    }
  }

  lemma SourceIsOfEntries(s: Snapshot, key: string, source: Source)
    ensures SourceHolds(Records(s), key, source) <==> HasEntry(s, key, source)
  {
    hide LastOf, NormalizeMac;
    var records := Records(s);
    if HasEntry(s, key, source) {
      var r := EntryHasRecord(s, key, source);
      var i :| 0 <= i < |records| && records[i] == r;
    }
    if SourceHolds(records, key, source) {
      var i :| 0 <= i < |records| && records[i].key == key && records[i].source == source;
      RecordHasEntry(s, records[i]);
    }
  }

  /** A key has a client if and only if some entry has the key. */
  lemma ClientsAreTheKeysOfEntries(env: Env, s: Snapshot, key: string)
    ensures (exists n :: 0 <= n < |Build(env, s)| && Build(env, s)[n].key == key) <==> exists source :: HasEntry(s, key, source)
  {
    hide Build, Records, HasEntry, Precedes, Reads;
    ClientsAreTheMerge(env, s);
    var records := Records(s);
    assert Mentions(records, key) <==> exists source :: SourceHolds(records, key, source) by {
      if i :| 0 <= i < |records| && records[i].key == key {
        assert SourceHolds(records, key, records[i].source);
      }
    }
    forall source
      ensures SourceHolds(records, key, source) <==> HasEntry(s, key, source)
    {
      SourceIsOfEntries(s, key, source);
    }
  }

  predicate Alphabetical(a: Source, b: Source) {
    match a
    case Arp => b != Arp
    case Dhcp => b.Neighbor? || b.Wifi?
    case Neighbor => b.Wifi?
    case Wifi => false
  }

  function FirstOf(a: Js, b: Js): Js {
    match a
    case Null => b
    case _ => a
  }

  /** How a client is made from the merged state of its key. */
  lemma ClientIsMadeOf(env: Env, s: Snapshot, n: nat)
    requires n < |Build(env, s)|
    ensures var c, t := Build(env, s)[n], MergeAll(EMPTY, Records(s));
      c.key in t.states &&
      var state := t.states[c.key];
      && (forall field :: Get(c.values, field) == Get(state.values, field))
      && c.sources == SortedSources(state.sources)
      && (LeaseExpires in state.values ==> state.values[LeaseExpires] != Undefined ==>
            c.leaseActive == Some(env.leaseActive(Get(c.values, LeaseExpires))))
      && (LeaseExpires !in state.values ==> c.leaseActive == None)
      && c.id == FirstOf(Get(c.values, Mac), FirstOf(c.ipv4, FirstOf(c.ipv6, Text("unknown"))))
      && c.medium == env.medium(if Get(c.values, Mac).Text? then NormalizeMac(Some(Get(c.values, Mac).text)) else NormalizeMac(None),
                                Wifi in state.sources, Get(c.values, Interface))
  {
    hide Records, NormalizeMac, MergeAll, IndexBy, SortedSources;
    MergeIsLastWriterWins(Records(s));
  }

  lemma SourcesAreAlphabetical(sources: set<Source>)
    ensures var listed := SortedSources(sources);
      forall i, j :: 0 <= i < j < |listed| ==> Alphabetical(listed[i], listed[j])
  {}

  lemma StateHoldsLastValue(records: seq<Record>, key: string, field: Field)
    requires key in MergeAll(EMPTY, records).states
    ensures var values := MergeAll(EMPTY, records).states[key].values;
      && (field in values <==> LastValue(records, key, field).Some?)
      && (field in values ==> LastValue(records, key, field) == Some(values[field]))
  {
    hide MergeAll, LastWriter;
    MergeIsLastWriterWins(records);
    LastValueIsLastWriters(records, key, field);
    assert ValuesAreRight(MergeAll(EMPTY, records).states[key].values, records, key);
  }

  /** The lease time is written by every lease of the key and by nothing else. */
  lemma LeaseIsJudgedIffThere(env: Env, s: Snapshot, n: nat)
    requires n < |Build(env, s)|
    ensures var c := Build(env, s)[n];
      c.leaseActive == if HasEntry(s, c.key, Dhcp) then Some(env.leaseActive(Get(c.values, LeaseExpires))) else None
  {
    hide Records, Build, MergeAll, LastValue, LastOf, Get;
    var key, records := Build(env, s)[n].key, Records(s);
    ClientIsMadeOf(env, s, n);
    StateHoldsLastValue(records, key, LeaseExpires);
    LastValueBySource(s, key, LeaseExpires);
    LeasesSay(s.leases, key);
    ArpSays(s.arp, key);
    StationsSay(s.stations, key);
    NeighborsSay(s.neighbors, key);
  }

  /** What a client is said to be: its sources in alphabetical order; online with a station entry or
      when the last ARP entry is in a reachable state; its lease judged when it has one; its medium
      judged by its own MAC, WiFi membership and interface; and its id its MAC or, failing that, an
      address. */
  lemma ClientStandsForItsEntries(env: Env, s: Snapshot, n: nat)
    requires n < |Build(env, s)|
    ensures var c := Build(env, s)[n];
      var arp := LastOf(s.arp, ArpOf(c.key));
      && (forall source :: source in c.sources <==> HasEntry(s, c.key, source))
      && (forall i, j :: 0 <= i < j < |c.sources| ==> Alphabetical(c.sources[i], c.sources[j]))
      && (c.online <==> HasEntry(s, c.key, Wifi) || (arp.Some? && arp.value.state in {"complete", "reachable", "REACHABLE"}))
      && c.leaseActive == (if HasEntry(s, c.key, Dhcp) then Some(env.leaseActive(Get(c.values, LeaseExpires))) else None)
      && c.id == FirstOf(Get(c.values, Mac), FirstOf(c.ipv4, FirstOf(c.ipv6, Text("unknown"))))
      && c.medium == env.medium(if Get(c.values, Mac).Text? then NormalizeMac(Some(Get(c.values, Mac).text)) else None,
                                HasEntry(s, c.key, Wifi), Get(c.values, Interface))
  {
    hide Build, Records, NormalizeMac, LastOf, MergeAll, Get, SortedSources, HasEntry, SourceHolds, ShowsStation, ShowsShared;
    var c, records := Build(env, s)[n], Records(s);
    ClientReadsItsRecords(env, s, n);
    ClientIsMadeOf(env, s, n);
    SourcesAreAlphabetical(MergeAll(EMPTY, records).states[c.key].sources);
    SortedSourcesAreTheSet(MergeAll(EMPTY, records).states[c.key].sources, Wifi);
    NoMacNoKey();
    ClientShowsTheLastEntries(env, s, n);
    LeaseIsJudgedIffThere(env, s, n);
    forall source
      ensures SourceHolds(records, c.key, source) <==> HasEntry(s, c.key, source)
    {
      SourceIsOfEntries(s, c.key, source);
    }
  }
}
