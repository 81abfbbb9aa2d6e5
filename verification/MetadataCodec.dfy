/** The JSON form of cluster metadata: what `to_payload` writes, what `from_payload` accepts, and
    the checked envelope around it. A JSON object is a map: key order carries no meaning, and the
    writer sorts keys. */
module MetadataCodec {
  import opened Basics
  import opened Protocol

  // ---------------------------------------------------------------- decimal shard keys

  predicate IsDigit(c: char) { '0' <= c <= '9' }

  /** ASCII white space that `int` strips. */
  predicate IsSpace(c: char) { 9 <= c as int <= 13 || 28 <= c as int <= 32 }

  function NatText(n: nat): (s: string)
    ensures s != [] && forall i :: 0 <= i < |s| ==> IsDigit(s[i])
  {
    (if n < 10 then [] else NatText(n / 10)) + [('0' as int + n % 10) as char]
  }

  /** Digits with single underscores between them. */
  function Digits(s: string): Option<nat> {
    if s == [] || !IsDigit(s[|s| - 1]) then None
    else
      var d := s[|s| - 1] as int - '0' as int;
      if |s| == 1 then Some(d)
      else
        match Digits(if s[|s| - 2] == '_' then s[..|s| - 2] else s[..|s| - 1])
        case None => None
        case Some(n) => Some(10 * n + d)
  }

  function Strip(s: string): (t: string)
    ensures s != [] && !IsSpace(s[0]) && !IsSpace(s[|s| - 1]) ==> t == s
  {
    if s == [] then s
    else if IsSpace(s[0]) then Strip(s[1..])
    else if IsSpace(s[|s| - 1]) then Strip(s[..|s| - 1])
    else s
  }

  /** Python's `int(text)`. Text it accepts beyond this grammar (other scripts' digits and
      spaces) is never canonical. */
  function ParseInt(text: string): Option<int> {
    var s := Strip(text);
    if s == [] then None
    else if s[0] == '-' then Signed(-1, Digits(s[1..]))
    else Signed(1, Digits(if s[0] == '+' then s[1..] else s))
  }

  function Signed(sign: int, digits: Option<nat>): Option<int> {
    match digits
    case None => None
    case Some(n) => Some(sign * n)
  }

  lemma {:induction false} DigitsOfText(n: nat)
    ensures Digits(NatText(n)) == Some(n)
  {
    if n >= 10 {
      DigitsOfText(n / 10);
      var s := NatText(n);
      assert s[..|s| - 1] == NatText(n / 10);
    }
  }

  /** Python's `str(n)`. */
  function Decimal(n: int): (s: string)
    ensures ParseInt(s) == Some(n)
  {
    if n >= 0 then DigitsOfText(n); NatText(n)
    else
      DigitsOfText(-n);
      var s := "-" + NatText(-n);
      assert s[1..] == NatText(-n);
      s
  }

  /** A shard key is accepted when it parses and prints back as itself. */
  function KeyOf(text: string): Option<int> {
    match ParseInt(text)
    case None => None
    case Some(n) => if text == Decimal(n) then Some(n) else None
  }

  /** The accepted keys are exactly the printed integers. */
  lemma CanonicalKeys(text: string, n: int)
    ensures KeyOf(text) == Some(n) <==> text == Decimal(n)
  {
  }

  // ---------------------------------------------------------------- writing

  function AddressJson(a: Address): Json { Arr([Str(a.host), Int(a.port)]) }

  function Names(nodes: seq<Node>): (items: seq<Json>)
    ensures |items| == |nodes| && forall i :: 0 <= i < |items| ==> items[i] == Str(nodes[i])
  {
    seq(|nodes|, i requires 0 <= i < |nodes| => Str(nodes[i]))
  }

  const PLACEMENT_FIELDS := {"shard_id", "term", "placement_epoch", "leader", "replicas", "last_log_index", "committed_index"}

  function PlacementJson(p: Placement): Json {
    Obj(map["shard_id" := Int(p.shardId), "term" := Int(p.term), "placement_epoch" := Int(p.placementEpoch),
            "leader" := Str(p.leader), "replicas" := Arr(Names(p.replicas)),
            "last_log_index" := Int(p.lastLogIndex), "committed_index" := Int(p.committedIndex)])
  }

  const RECORD_FIELDS := {"shard_id", "term", "index", "checksum", "status"}

  function RecordJson(r: RequestRecord): Json {
    Obj(map["shard_id" := Int(r.shardId), "term" := Int(r.term), "index" := Int(r.index), "checksum" := Int(r.checksum),
            "status" := Str(if r.status.Prepared? then "prepared" else "committed")])
  }

  function MembersJson(members: map<Node, Address>): map<string, Json> {
    map n | n in members :: AddressJson(members[n])
  }

  function ShardsJson(shards: map<int, Placement>): map<string, Json> {
    map s | s in shards :: Decimal(s) := PlacementJson(shards[s])
  }

  function RequestsJson(table: map<string, RequestRecord>): map<string, Json> {
    map r | r in table :: RecordJson(table[r])
  }

  const FIELDS_V1 := {"cluster_id", "dimension", "shard_count", "replication_factor", "epoch", "routing_version", "members",
                      "shards", "request_table"}
  const FIELDS_V2 := FIELDS_V1 + {"collection_config"}

  /** The nine members every version has. */
  function Common(m: Metadata, routing: int): map<string, Json> {
    map["cluster_id" := Str(m.clusterId), "dimension" := Int(m.dimension), "shard_count" := Int(m.shardCount),
        "replication_factor" := Int(m.replicationFactor), "epoch" := Int(m.epoch), "routing_version" := Int(routing),
        "members" := Obj(MembersJson(m.members)), "shards" := Obj(ShardsJson(m.shards)),
        "request_table" := Obj(RequestsJson(m.requestTable))]
  }

  function Payload(m: Metadata): map<string, Json> {
    Common(m, m.routingVersion)["collection_config" := Obj(m.collectionConfig)]
  }

  /** `to_payload`: validates first. */
  function ToPayload(kernel: Kernel, m: Metadata): Result<Json> {
    if Validate(kernel, m) then Ok(Obj(Payload(m))) else Err
  }

  // ---------------------------------------------------------------- what a payload means

  /** The payload is `m`'s own version-2 form, or its version-1 form, which has routing version 1 and
      leaves the collection configuration to the kernel's default. */
  ghost predicate Written(kernel: Kernel, version: int, payload: Json, m: Metadata) {
    && m.routingVersion == ROUTING_VERSION
    && if version == 1
       then payload == Obj(Common(m, 1)) && kernel.legacyDefault(m.dimension) == Some(m.collectionConfig)
       else payload == Obj(Payload(m))
  }

  ghost predicate Denotes(kernel: Kernel, version: int, payload: Json, m: Metadata) {
    Written(kernel, version, payload, m) && Validate(kernel, m)
  }

  lemma AddressInjective(a: map<Node, Address>, b: map<Node, Address>)
    requires MembersJson(a) == MembersJson(b)
    ensures a == b
  {
    assert a.Keys == MembersJson(a).Keys && b.Keys == MembersJson(b).Keys;
    forall n | n in a ensures a[n] == b[n] {
      var x, y := MembersJson(a)[n], MembersJson(b)[n];
      assert x.items[0] == y.items[0] && x.items[1] == y.items[1];
    }
  }

  lemma PlacementInjective(p: Placement, q: Placement)
    requires PlacementJson(p) == PlacementJson(q)
    ensures p == q
  {
    var x, y := PlacementJson(p).members, PlacementJson(q).members;
    forall f | f in PLACEMENT_FIELDS ensures x[f] == y[f] {}
    assert x["shard_id"] == y["shard_id"] && x["term"] == y["term"] && x["placement_epoch"] == y["placement_epoch"];
    assert x["last_log_index"] == y["last_log_index"] && x["committed_index"] == y["committed_index"];
    assert x["leader"] == y["leader"] && x["replicas"] == y["replicas"];
    assert Names(p.replicas) == Names(q.replicas);
    forall i | 0 <= i < |p.replicas| ensures p.replicas[i] == q.replicas[i] {
      assert Names(p.replicas)[i] == Names(q.replicas)[i];
    }
    assert p.replicas == q.replicas;
  }

  lemma ShardsInjective(a: map<int, Placement>, b: map<int, Placement>)
    requires ShardsJson(a) == ShardsJson(b)
    ensures a == b
  {
    hide PlacementJson, Decimal, ShardsJson;
    ShardKey(a);
    ShardKey(b);
    assert forall s :: s in a <==> s in b;
    forall s | s in a ensures a[s] == b[s] { PlacementInjective(a[s], b[s]); }
  }

  lemma ShardKey(a: map<int, Placement>)
    ensures forall s :: s in a <==> Decimal(s) in ShardsJson(a)
    ensures forall s :: s in a ==> ShardsJson(a)[Decimal(s)] == PlacementJson(a[s])
  {
    forall s | Decimal(s) in ShardsJson(a) ensures s in a {
      var t :| t in a && Decimal(t) == Decimal(s);
      assert Some(t) == ParseInt(Decimal(s)) == Some(s);
    }
  }

  lemma RecordInjective(r: RequestRecord, s: RequestRecord)
    requires RecordJson(r) == RecordJson(s)
    ensures r == s
  {
    var x, y := RecordJson(r).members, RecordJson(s).members;
    assert x["shard_id"] == y["shard_id"] && x["term"] == y["term"] && x["index"] == y["index"];
    assert x["checksum"] == y["checksum"] && x["status"] == y["status"];
    assert |"prepared"| != |"committed"|;
  }

  lemma RequestsInjective(a: map<string, RequestRecord>, b: map<string, RequestRecord>)
    requires RequestsJson(a) == RequestsJson(b)
    ensures a == b
  {
    hide RecordJson;
    assert a.Keys == RequestsJson(a).Keys && b.Keys == RequestsJson(b).Keys;
    forall n | n in a ensures a[n] == b[n] {
      assert RequestsJson(a)[n] == RequestsJson(b)[n];
      RecordInjective(a[n], b[n]);
    }
  }

  lemma CommonInjective(m: Metadata, n: Metadata, routing: int)
    requires Common(m, routing) == Common(n, routing)
    ensures m == n.(collectionConfig := m.collectionConfig, routingVersion := m.routingVersion)
  {
    hide MembersJson, ShardsJson, RequestsJson;
    var x, y := Common(m, routing), Common(n, routing);
    assert x["cluster_id"] == y["cluster_id"] && x["dimension"] == y["dimension"] && x["shard_count"] == y["shard_count"];
    assert x["replication_factor"] == y["replication_factor"] && x["epoch"] == y["epoch"];
    assert x["members"] == y["members"] && x["shards"] == y["shards"] && x["request_table"] == y["request_table"];
    AddressInjective(m.members, n.members);
    ShardsInjective(m.shards, n.shards);
    RequestsInjective(m.requestTable, n.requestTable);
  }

  lemma CommonKeys(m: Metadata, routing: int)
    ensures Common(m, routing).Keys == FIELDS_V1 && "collection_config" !in FIELDS_V1
  {
    hide MembersJson, ShardsJson, RequestsJson;
  }

  lemma AddedKey<K, V>(a: map<K, V>, b: map<K, V>, k: K, v: V, w: V)
    requires k !in a && k !in b && a[k := v] == b[k := w]
    ensures a == b && v == w
  {
    assert v == a[k := v][k] == b[k := w][k] == w;
    assert a == a[k := v] - {k} && b == b[k := w] - {k};
  }

  /** A payload denotes at most one value. */
  lemma WrittenOnce(kernel: Kernel, version: int, payload: Json, m: Metadata, n: Metadata)
    requires Written(kernel, version, payload, m) && Written(kernel, version, payload, n)
    ensures m == n
  {
    hide Common;
    if version == 1 {
      CommonInjective(m, n, 1);
    } else {
      CommonKeys(m, ROUTING_VERSION);
      CommonKeys(n, ROUTING_VERSION);
      AddedKey(Common(m, ROUTING_VERSION), Common(n, ROUTING_VERSION), "collection_config", Obj(m.collectionConfig), Obj(n.collectionConfig));
      CommonInjective(m, n, ROUTING_VERSION);
    }
  }

  // ---------------------------------------------------------------- the wire format, name by name

  ghost predicate PlacementSays(j: Json, p: Placement) {
    && j.Obj?
    && j.members.Keys == {"shard_id", "term", "placement_epoch", "leader", "replicas", "last_log_index", "committed_index"}
    && j.members["shard_id"] == Int(p.shardId) && j.members["term"] == Int(p.term)
    && j.members["placement_epoch"] == Int(p.placementEpoch) && j.members["leader"] == Str(p.leader)
    && j.members["last_log_index"] == Int(p.lastLogIndex) && j.members["committed_index"] == Int(p.committedIndex)
    && j.members["replicas"].Arr? && |j.members["replicas"].items| == |p.replicas|
    && forall k :: 0 <= k < |p.replicas| ==> j.members["replicas"].items[k] == Str(p.replicas[k])
  }

  ghost predicate RecordSays(j: Json, r: RequestRecord) {
    && j.Obj? && j.members.Keys == {"shard_id", "term", "index", "checksum", "status"}
    && j.members["shard_id"] == Int(r.shardId) && j.members["term"] == Int(r.term)
    && j.members["index"] == Int(r.index) && j.members["checksum"] == Int(r.checksum)
    && (r.status.Prepared? ==> j.members["status"] == Str("prepared"))
    && (r.status.Committed? ==> j.members["status"] == Str("committed"))
  }

  ghost predicate AddressSays(j: Json, a: Address) {
    j.Arr? && |j.items| == 2 && j.items[0] == Str(a.host) && j.items[1] == Int(a.port)
  }

  /** The payload holds each field of the metadata under its own name: members as pairs of host and
      port, shards under their decimal numbers, requests under their IDs. */
  ghost predicate PayloadSays(o: map<string, Json>, m: Metadata, version: int) {
    && o.Keys == {"cluster_id", "dimension", "shard_count", "replication_factor", "epoch", "routing_version", "members",
                  "shards", "request_table"} + (if version == 1 then {} else {"collection_config"})
    && o["cluster_id"] == Str(m.clusterId) && o["dimension"] == Int(m.dimension) && o["shard_count"] == Int(m.shardCount)
    && o["replication_factor"] == Int(m.replicationFactor) && o["epoch"] == Int(m.epoch)
    && o["routing_version"] == Int(if version == 1 then 1 else 2)
    && (version != 1 ==> o["collection_config"] == Obj(m.collectionConfig))
    && o["members"].Obj? && o["members"].members.Keys == m.members.Keys
    && (forall n :: n in m.members ==> AddressSays(o["members"].members[n], m.members[n]))
    && o["shards"].Obj? && o["shards"].members.Keys == (set s | s in m.shards :: Decimal(s))
    && (forall s :: s in m.shards ==> PlacementSays(o["shards"].members[Decimal(s)], m.shards[s]))
    && o["request_table"].Obj? && o["request_table"].members.Keys == m.requestTable.Keys
    && (forall q :: q in m.requestTable ==> RecordSays(o["request_table"].members[q], m.requestTable[q]))
  }

  lemma PlacementIsSaid(p: Placement)
    ensures PlacementSays(PlacementJson(p), p)
  {
  }

  lemma RecordIsSaid(r: RequestRecord)
    ensures RecordSays(RecordJson(r), r)
  {
  }

  lemma TablesAreSaid(m: Metadata)
    ensures forall n :: n in m.members ==> AddressSays(MembersJson(m.members)[n], m.members[n])
    ensures ShardsJson(m.shards).Keys == (set s | s in m.shards :: Decimal(s))
    ensures forall s :: s in m.shards ==> PlacementSays(ShardsJson(m.shards)[Decimal(s)], m.shards[s])
    ensures forall q :: q in m.requestTable ==> RecordSays(RequestsJson(m.requestTable)[q], m.requestTable[q])
  {
    hide PlacementJson, PlacementSays, RecordJson, RecordSays, Decimal;
    ShardKey(m.shards);
    forall s | s in m.shards ensures PlacementSays(ShardsJson(m.shards)[Decimal(s)], m.shards[s]) { PlacementIsSaid(m.shards[s]); }
    forall q | q in m.requestTable ensures RecordSays(RequestsJson(m.requestTable)[q], m.requestTable[q]) { RecordIsSaid(m.requestTable[q]); }
  }

  /** Whatever a payload is written from, or denotes, it says. */
  lemma WrittenSays(kernel: Kernel, version: int, payload: Json, m: Metadata)
    requires Written(kernel, version, payload, m)
    ensures payload.Obj? && PayloadSays(payload.members, m, version)
  {
    WrittenShows(kernel, version, payload, m);
    TablesAreSaid(m);
    hide MembersJson, ShardsJson, RequestsJson, PlacementSays, RecordSays, AddressSays, Written;
    assert MembersJson(m.members).Keys == m.members.Keys && RequestsJson(m.requestTable).Keys == m.requestTable.Keys by { TableKeys(m); }
  }

  lemma TableKeys(m: Metadata)
    ensures MembersJson(m.members).Keys == m.members.Keys && RequestsJson(m.requestTable).Keys == m.requestTable.Keys
  {
  }

  /** What `to_payload` returns says the metadata. */
  lemma ToPayloadSays(kernel: Kernel, m: Metadata)
    requires Validate(kernel, m)
    ensures ToPayload(kernel, m).Ok? && ToPayload(kernel, m).value.Obj? && PayloadSays(ToPayload(kernel, m).value.members, m, 2)
  {
    assert m.routingVersion == ROUTING_VERSION;
    hide PayloadSays, Payload, Validate;
    WrittenSays(kernel, 2, Obj(Payload(m)), m);
  }

  // ---------------------------------------------------------------- decimal text

  /** The number that decimal text denotes, read from the left. */
  function Denoted(s: string, acc: int): int
    requires forall i :: 0 <= i < |s| ==> IsDigit(s[i])
  {
    if s == [] then acc else Denoted(s[1..], 10 * acc + (s[0] as int - '0' as int))
  }

  lemma {:induction false} DenotedSnoc(s: string, c: char, acc: int)
    requires IsDigit(c) && forall i :: 0 <= i < |s| ==> IsDigit(s[i])
    ensures Denoted(s + [c], acc) == 10 * Denoted(s, acc) + (c as int - '0' as int)
  {
    if s == [] {
      assert (s + [c])[1..] == [];
    } else {
      assert (s + [c])[1..] == s[1..] + [c];
      DenotedSnoc(s[1..], c, 10 * acc + (s[0] as int - '0' as int));
    }
  }

  /** Shard keys are plain decimal numbers: digits only, no leading zero, a sign only below zero. */
  lemma {:induction false} DecimalIsDecimal(n: nat)
    ensures var s := Decimal(n);
      && s != [] && (forall i :: 0 <= i < |s| ==> '0' <= s[i] <= '9') && Denoted(s, 0) == n && (s[0] == '0' ==> s == "0")
    ensures n > 0 ==> Decimal(-(n as int)) == "-" + Decimal(n)
  {
    if n >= 10 {
      DecimalIsDecimal(n / 10);
      DenotedSnoc(Decimal(n / 10), ('0' as int + n % 10) as char, 0);
    } else {
      DenotedSnoc([], ('0' as int + n) as char, 0);
      assert [] + NatText(n) == NatText(n);
    }
  }

  // ---------------------------------------------------------------- reading

  function AddressOf(j: Json): (r: Result<Address>)
    ensures r.Ok? ==> j == AddressJson(r.value)
    ensures forall a :: j == AddressJson(a) ==> r == Ok(a)
  {
    if j.Arr? && |j.items| == 2 && j.items[0].Str? && j.items[1].Int?
    then assert j.items == [Str(j.items[0].s), Int(j.items[1].n)]; Ok(Address(j.items[0].s, j.items[1].n))
    else Err
  }

  predicate AllNames(items: seq<Json>) { forall i :: 0 <= i < |items| ==> items[i].Str? }

  function NamesOf(items: seq<Json>): (nodes: seq<Node>)
    requires AllNames(items)
    ensures Names(nodes) == items
  {
    seq(|items|, i requires 0 <= i < |items| => items[i].s)
  }

  /** A placement object: exactly the seven fields, each of its own type. */
  function PlacementOf(j: Json): (r: Result<Placement>)
    ensures r.Ok? ==> j == PlacementJson(r.value)
    ensures (exists p :: j == PlacementJson(p)) ==> r.Ok?
  {
    if !j.Obj? || j.members.Keys != PLACEMENT_FIELDS then Err
    else
      var o := j.members;
      if !o["shard_id"].Int? || !o["term"].Int? || !o["placement_epoch"].Int? || !o["last_log_index"].Int? || !o["committed_index"].Int? then Err
      else if !o["leader"].Str? || !o["replicas"].Arr? || !AllNames(o["replicas"].items) then Err
      else Ok(Placement(o["shard_id"].n, o["term"].n, o["placement_epoch"].n, o["leader"].s, NamesOf(o["replicas"].items),
                        o["last_log_index"].n, o["committed_index"].n))
  }

  function RecordOf(j: Json): (r: Result<RequestRecord>)
    ensures r.Ok? ==> j == RecordJson(r.value)
    ensures (exists x :: j == RecordJson(x)) ==> r.Ok?
  {
    if !j.Obj? || j.members.Keys != RECORD_FIELDS then Err
    else
      var o := j.members;
      if !o["shard_id"].Int? || !o["term"].Int? || !o["index"].Int? || !o["checksum"].Int? then Err
      else if o["status"] != Str("prepared") && o["status"] != Str("committed") then Err
      else Ok(RequestRecord(o["shard_id"].n, o["term"].n, o["index"].n, o["checksum"].n,
                            if o["status"] == Str("prepared") then Prepared else Committed))
  }

  /** The loop over `members`. */
  method ReadMembers(o: map<string, Json>) returns (r: Result<map<Node, Address>>)
    ensures r.Ok? ==> MembersJson(r.value) == o
    ensures (exists ms :: MembersJson(ms) == o) ==> r.Ok?
  {
    hide AddressOf, AddressJson;
    var members, todo := map[], o.Keys;
    while todo != {}
      invariant todo <= o.Keys && members.Keys == o.Keys - todo
      invariant forall n :: n in members ==> AddressJson(members[n]) == o[n]
    {
      var node :| node in todo;
      var address := AddressOf(o[node]);
      if address.Err? {
        forall ms | MembersJson(ms) == o ensures false { MemberRead(ms, node); }
        return Err;
      }
      members, todo := members[node := address.value], todo - {node};
    }
    return Ok(members);
  }

  /** The loop over `shards`. */
  method ReadShards(o: map<string, Json>) returns (r: Result<map<int, Placement>>)
    ensures r.Ok? ==> ShardsJson(r.value) == o
    ensures (exists ss :: ShardsJson(ss) == o) ==> r.Ok?
  {
    hide PlacementOf, PlacementJson, KeyOf, ParseInt;
    var shards: map<int, Placement>, todo := map[], o.Keys;
    while todo != {}
      invariant todo <= o.Keys
      invariant forall s :: s in shards ==> Decimal(s) in o && Decimal(s) !in todo && PlacementJson(shards[s]) == o[Decimal(s)]
      invariant forall k :: k in o && k !in todo ==> exists s :: s in shards && k == Decimal(s)
    {
      var key :| key in todo;
      var id, placement := KeyOf(key), PlacementOf(o[key]);
      if id.None? || placement.Err? {
        forall ss | ShardsJson(ss) == o ensures false { ShardRead(ss, key); }
        return Err;
      }
      CanonicalKeys(key, id.value);
      ghost var before := shards;
      shards, todo := shards[id.value := placement.value], todo - {key};
      forall k | k in o && k !in todo ensures exists s :: s in shards && k == Decimal(s) {
        if k != key {
          var s :| s in before && k == Decimal(s);
          assert s in shards;
        } else {
          assert id.value in shards;
        }
      }
      forall s | s in shards ensures Decimal(s) in o && Decimal(s) !in todo && PlacementJson(shards[s]) == o[Decimal(s)] {
        if s != id.value {
          assert s in before;
        }
      }
    }
    ShardKey(shards);
    assert forall k :: k in o <==> k in ShardsJson(shards);
    return Ok(shards);
  }

  lemma MemberRead(ms: map<Node, Address>, node: Node)
    requires node in MembersJson(ms)
    ensures AddressOf(MembersJson(ms)[node]).Ok?
  {
  }

  lemma RecordRead(table: map<string, RequestRecord>, id: string)
    requires id in RequestsJson(table)
    ensures RecordOf(RequestsJson(table)[id]).Ok?
  {
  }

  lemma ShardRead(ss: map<int, Placement>, key: string)
    requires key in ShardsJson(ss)
    ensures KeyOf(key).Some? && PlacementOf(ShardsJson(ss)[key]).Ok?
  {
    hide PlacementOf, PlacementJson, ParseInt;
    var s :| s in ss && key == Decimal(s);
    CanonicalKeys(key, s);
    ShardKey(ss);
    assert PlacementOf(PlacementJson(ss[s])).Ok?;
  }

  /** The loop over the request table. */
  method ReadRequests(o: map<string, Json>) returns (r: Result<map<string, RequestRecord>>)
    ensures r.Ok? ==> RequestsJson(r.value) == o
    ensures (exists t :: RequestsJson(t) == o) ==> r.Ok?
  {
    hide RecordOf, RecordJson;
    var table, todo := map[], o.Keys;
    while todo != {}
      invariant todo <= o.Keys && table.Keys == o.Keys - todo
      invariant forall n :: n in table ==> RecordJson(table[n]) == o[n]
    {
      var id :| id in todo;
      var record := RecordOf(o[id]);
      if record.Err? {
        forall t | RequestsJson(t) == o ensures false { RecordRead(t, id); }
        return Err;
      }
      table, todo := table[id := record.value], todo - {id};
    }
    return Ok(table);
  }

  function Fields(version: int): set<string> { if version == 1 then FIELDS_V1 else FIELDS_V2 }

  /** `Written`, field by field. */
  ghost predicate Shows(kernel: Kernel, version: int, o: map<string, Json>, m: Metadata)
    requires o.Keys == Fields(version)
  {
    && m.routingVersion == ROUTING_VERSION
    && o["cluster_id"] == Str(m.clusterId) && o["dimension"] == Int(m.dimension) && o["shard_count"] == Int(m.shardCount)
    && o["replication_factor"] == Int(m.replicationFactor) && o["epoch"] == Int(m.epoch)
    && o["members"] == Obj(MembersJson(m.members)) && o["shards"] == Obj(ShardsJson(m.shards))
    && o["request_table"] == Obj(RequestsJson(m.requestTable))
    && if version == 1
       then o["routing_version"] == Int(1) && kernel.legacyDefault(m.dimension) == Some(m.collectionConfig)
       else o["routing_version"] == Int(2) && o["collection_config"] == Obj(m.collectionConfig)
  }

  lemma WrittenShows(kernel: Kernel, version: int, payload: Json, m: Metadata)
    ensures Written(kernel, version, payload, m)
      <==> payload.Obj? && payload.members.Keys == Fields(version) && Shows(kernel, version, payload.members, m)
  {
    if Written(kernel, version, payload, m) { OwnFormShows(kernel, version, m); }
    if payload.Obj? && payload.members.Keys == Fields(version) && Shows(kernel, version, payload.members, m) {
      ShownIsWritten(kernel, version, payload.members, m);
    }
  }

  lemma OwnFormShows(kernel: Kernel, version: int, m: Metadata)
    requires m.routingVersion == ROUTING_VERSION && (version == 1 ==> kernel.legacyDefault(m.dimension) == Some(m.collectionConfig))
    ensures var o := if version == 1 then Common(m, 1) else Payload(m); o.Keys == Fields(version) && Shows(kernel, version, o, m)
  {
    hide MembersJson, ShardsJson, RequestsJson;
    CommonKeys(m, if version == 1 then 1 else 2);
  }

  lemma ShownIsWritten(kernel: Kernel, version: int, o: map<string, Json>, m: Metadata)
    requires o.Keys == Fields(version) && Shows(kernel, version, o, m)
    ensures Written(kernel, version, Obj(o), m)
  {
    hide MembersJson, ShardsJson, RequestsJson;
    CommonKeys(m, if version == 1 then 1 else 2);
    if version == 1 {
      assert o == Common(m, 1);
    } else {
      assert o == Payload(m);
    }
  }

  /** `from_payload`: returns the value the payload denotes, and raises exactly when there is none. */
  method FromPayload(kernel: Kernel, payload: Json, version: int) returns (r: Result<Metadata>)
    ensures r.Ok? ==> Denotes(kernel, version, payload, r.value)
    ensures r.Ok? ==> payload.Obj? && PayloadSays(payload.members, r.value, version)
    ensures r.Err? ==> forall m :: !Denotes(kernel, version, payload, m)
  {
    hide CanonicalConfig, ValidPlacement, ValidAddress, MembersJson, ShardsJson, RequestsJson, Written, PayloadSays;
    forall n
      ensures Written(kernel, version, payload, n)
        <==> payload.Obj? && payload.members.Keys == Fields(version) && Shows(kernel, version, payload.members, n)
    {
      WrittenShows(kernel, version, payload, n);
    }
    if !payload.Obj? || payload.members.Keys != Fields(version) { return Err; }
    var o := payload.members;
    if !o["dimension"].Int? || o["dimension"].n <= 0 || !o["cluster_id"].Str? || !o["routing_version"].Int? { return Err; }
    var dimension, routing := o["dimension"].n, o["routing_version"].n;
    var config;
    if version == 1 {
      if routing != 1 { return Err; }
      var default := kernel.legacyDefault(dimension);
      if default.None? { return Err; }
      config, routing := default.value, ROUTING_VERSION;
    } else {
      if !o["collection_config"].Obj? || !CanonicalConfig(kernel, o["collection_config"].members, dimension) { return Err; }
      config := o["collection_config"].members;
    }
    if !o["members"].Obj? || !o["shards"].Obj? { return Err; }
    var members := ReadMembers(o["members"].members);
    if members.Err? { return Err; }
    var shards := ReadShards(o["shards"].members);
    if shards.Err? || !o["request_table"].Obj? { return Err; }
    var requests := ReadRequests(o["request_table"].members);
    if requests.Err? || !o["shard_count"].Int? || !o["replication_factor"].Int? || !o["epoch"].Int? { return Err; }
    var m := Metadata(o["cluster_id"].s, dimension, o["shard_count"].n, o["replication_factor"].n, o["epoch"].n,
                      members.value, shards.value, config, requests.value, routing);
    if routing != ROUTING_VERSION { return Err; }
    assert Written(kernel, version, payload, m);
    if !Validate(kernel, m) {
      forall n | Written(kernel, version, payload, n) ensures n == m { WrittenOnce(kernel, version, payload, n, m); }
      return Err;
    }
    WrittenSays(kernel, version, payload, m);
    return Ok(m);
  }

  // ---------------------------------------------------------------- the checked envelope

  const ENVELOPE_FIELDS := {"version", "payload", "checksum"}

  /** `checked_envelope`; `crc` stands for the checksum of a payload's canonical bytes. */
  function Envelope(crc: Json -> int, version: int, payload: Json): Json {
    Obj(map["version" := Int(version), "payload" := payload, "checksum" := Int(crc(payload))])
  }

  /** `ClusterMetadata.load` on a parsed file: it returns the value that a version 1 or 2 envelope
      with a matching checksum denotes, and raises on every other file. */
  method Load(kernel: Kernel, crc: Json -> int, file: Json) returns (r: Result<Metadata>)
    ensures r.Ok? ==> exists version, payload ::
      1 <= version <= 2 && file == Envelope(crc, version, payload) && Denotes(kernel, version, payload, r.value)
    ensures r.Err? ==> forall version, payload, m ::
      1 <= version <= 2 && file == Envelope(crc, version, payload) ==> !Denotes(kernel, version, payload, m)
  {
    hide Denotes, PayloadSays;
    if !file.Obj? || file.members.Keys != ENVELOPE_FIELDS || !file.members["version"].Int? { return Err; }
    var version := file.members["version"].n;
    if version != 1 && version != 2 { return Err; }
    var payload := file.members["payload"];
    if !payload.Obj? || file.members["checksum"] != Int(crc(payload)) {
      forall v, p, m | 1 <= v <= 2 && file == Envelope(crc, v, p) ensures !Denotes(kernel, v, p, m) {
        EnvelopeParts(crc, v, p);
        ObjectsOnly(kernel, v, p, m);
      }
      return Err;
    }
    r := FromPayload(kernel, payload, version);
    assert file.members == Envelope(crc, version, payload).members;
    forall v, p | file == Envelope(crc, v, p) ensures v == version && p == payload { EnvelopeParts(crc, v, p); }
  }

  lemma EnvelopeParts(crc: Json -> int, version: int, payload: Json)
    ensures var o := Envelope(crc, version, payload).members;
      o["version"] == Int(version) && o["payload"] == payload && o["checksum"] == Int(crc(payload))
  {
  }

  lemma ObjectsOnly(kernel: Kernel, version: int, payload: Json, m: Metadata)
    ensures Denotes(kernel, version, payload, m) ==> payload.Obj?
  {
  }

  // ---------------------------------------------------------------- round trips

  /** Every valid value survives writing and reading; nothing else is read from what it wrote. */
  lemma WriteThenRead(kernel: Kernel, m: Metadata)
    requires Validate(kernel, m)
    ensures ToPayload(kernel, m).Ok? && Denotes(kernel, 2, ToPayload(kernel, m).value, m)
    ensures forall n :: Denotes(kernel, 2, ToPayload(kernel, m).value, n) ==> n == m
  {
    assert m.routingVersion == ROUTING_VERSION;
    hide Payload, Validate;
    forall n | Denotes(kernel, 2, Obj(Payload(m)), n) ensures n == m { WrittenOnce(kernel, 2, Obj(Payload(m)), n, m); }
  }

  /** An accepted version-2 payload is reproduced exactly, and a version-1 payload migrates to a
      version-2 payload that differs only in the routing version and the added configuration, and
      that reads back to the same value. */
  lemma ReadThenWrite(kernel: Kernel, version: int, payload: Json, m: Metadata)
    requires Denotes(kernel, version, payload, m)
    ensures ToPayload(kernel, m).Ok? && Denotes(kernel, 2, ToPayload(kernel, m).value, m)
    ensures version != 1 ==> ToPayload(kernel, m) == Ok(payload)
    ensures version == 1 ==> payload.Obj? && ToPayload(kernel, m) == Ok(Obj(Migrated(payload.members, m.collectionConfig)))
  {
    assert m.routingVersion == ROUTING_VERSION;
    hide Common, Validate;
    if version == 1 { CommonMigrates(m); }
  }

  function Migrated(o: map<string, Json>, config: map<string, Json>): map<string, Json> {
    o["routing_version" := Int(2)]["collection_config" := Obj(config)]
  }

  lemma CommonMigrates(m: Metadata)
    ensures Common(m, 2) == Common(m, 1)["routing_version" := Int(2)]
  {
    hide MembersJson, ShardsJson, RequestsJson;
    var x, y := Common(m, 2), Common(m, 1)["routing_version" := Int(2)];
    CommonKeys(m, 1);
    CommonKeys(m, 2);
    forall f | f in FIELDS_V1 ensures x[f] == y[f] {}
  }

  /** What a coordinator publishes is what the next coordinator loads. */
  method Republish(kernel: Kernel, crc: Json -> int, file: Json) returns (first: Result<Metadata>, again: Result<Metadata>)
    ensures first.Ok? ==> again == first
  {
    first := Load(kernel, crc, file);
    again := Err;
    if first.Ok? {
      var payload := ToPayload(kernel, first.value);
      WriteThenRead(kernel, first.value);
      again := Load(kernel, crc, Envelope(crc, 2, payload.value));
      assert Envelope(crc, 2, payload.value) == Envelope(crc, 2, payload.value);
      forall v, p | Envelope(crc, 2, payload.value) == Envelope(crc, v, p) ensures v == 2 && p == payload.value {
        EnvelopeParts(crc, v, p);
        EnvelopeParts(crc, 2, payload.value);
      }
    }
  }
}
