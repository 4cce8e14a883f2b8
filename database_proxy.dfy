/** The `database:proxy` command (src/Command/DatabaseProxy.php): pick a
    profile and an RDS instance, start the bastion host, wait for it to run,
    open an SSM port-forwarding session through it with the AWS CLI, relay
    the session's output, and stop the bastion when the session ends.

    The EC2 calls and the console output are recorded, in order, by one
    recorder; the RDS and EC2 query results, the prompts' answers, the free
    local port and the subprocess's output are inputs. */
module DatabaseProxy {
  import opened Php
  import Profiles

  const WaitingText: string := "Waiting for bastion to be running."
  const ProxyingText: string := "Proxying database instance."
  const StoppingText: string := "Stopping bastion instance"
  const PortForwardingDocument: string := "AWS-StartPortForwardingSessionToRemoteHost"

  // ---------------------------------------------------------------------
  // Query results

  datatype Endpoint = Endpoint(address: string, port: nat)

  /** An entry of DBInstances; an instance still being created has no
      endpoint yet. */
  datatype DbInstance = DbInstance(identifier: string, endpoint: Option<Endpoint>)

  datatype Ec2Instance = Ec2Instance(instanceId: string)

  datatype Reservation = Reservation(instances: seq<Ec2Instance>)

  /** The PHP array getDatabaseInstances builds: its keys in array order and
      the instance stored under each. */
  datatype Index = Index(keys: seq<string>, byId: map<string, DbInstance>)

  /** `$instances[$id] = $instance`: assigning to an existing key replaces
      the value and keeps the key's position. */
  function Store(index: Index, d: DbInstance): Index
  {
    var id := d.identifier;
    Index(if id in index.byId then index.keys else index.keys + [id], index.byId[id := d])
  }

  /** The described instances folded into the array in the order given. */
  function Indexed(described: seq<DbInstance>): Index
    decreases |described|
  {
    if described == [] then Index([], map[])
    else Store(Indexed(described[..|described| - 1]), described[|described| - 1])
  }

  /** getDatabaseInstances: the foreach over DBInstances. */
  method GetDatabaseInstances(described: seq<DbInstance>) returns (index: Index)
    ensures index == Indexed(described)
  {
    var keys: seq<string> := [];
    var instances: map<string, DbInstance> := map[];
    var i := 0;
    while i < |described|
      invariant 0 <= i <= |described|
      invariant Index(keys, instances) == Indexed(described[..i])
    {
      var instance := described[i];
      if instance.identifier !in instances {
        keys := keys + [instance.identifier];
      }
      instances := instances[instance.identifier := instance];
      assert described[..i + 1][..i] == described[..i];
      i := i + 1;
    }
    assert described[..i] == described;
    index := Index(keys, instances);
  }

  /** The position of the first instance with identifier id, or |described|. */
  function FirstAt(described: seq<DbInstance>, id: string): (i: nat)
    ensures i <= |described|
    ensures i < |described| ==> described[i].identifier == id
    ensures forall j :: 0 <= j < i ==> described[j].identifier != id
    decreases |described|
  {
    if described == [] then 0
    else if described[0].identifier == id then 0
    else 1 + FirstAt(described[1..], id)
  }

  lemma FirstAtOfAppended(described: seq<DbInstance>, d: DbInstance, id: string)
    ensures FirstAt(described + [d], id) ==
      if FirstAt(described, id) < |described| then FirstAt(described, id)
      else if d.identifier == id then |described|
      else |described| + 1
  {
    var all := described + [d];
    assert forall j :: 0 <= j < |described| ==> all[j] == described[j];
    assert all[|described|] == d;
  }

  /** The position of the last instance with identifier id, or |described|. */
  function LastAt(described: seq<DbInstance>, id: string): (i: nat)
    ensures i <= |described|
    ensures i < |described| ==> described[i].identifier == id
    ensures forall j :: i < j < |described| ==> described[j].identifier != id
    ensures i == |described| ==> forall j :: 0 <= j < |described| ==> described[j].identifier != id
    decreases |described|
  {
    if described == [] then 0
    else if described[|described| - 1].identifier == id then |described| - 1
    else
      var k := LastAt(described[..|described| - 1], id);
      if k < |described| - 1 then k else |described|
  }

  lemma LastAtOfAppended(described: seq<DbInstance>, d: DbInstance, id: string)
    ensures LastAt(described + [d], id) ==
      if d.identifier == id then |described|
      else if LastAt(described, id) < |described| then LastAt(described, id)
      else |described| + 1
  {
    assert (described + [d])[..|described|] == described;
  }

  /** The array's keys are listed once each, and are its keys. */
  ghost predicate KeysListed(index: Index)
  {
    Profiles.Distinct(index.keys) && forall id :: id in index.keys <==> id in index.byId
  }

  /** The keys are the identifiers that occur. This and InFirstOrder state
      the same insertion-order facts as Profiles.KeysOccur and
      Profiles.InFirstOrder, for instances keyed by identifier instead of
      sections keyed by name; the value kept differs (the last instance here,
      the first section there), so LastWins has no counterpart in Profiles. */
  ghost predicate KeysOccur(index: Index, described: seq<DbInstance>)
  {
    forall id :: id in index.byId <==> FirstAt(described, id) < |described|
  }

  /** Each key holds the last instance described under it. */
  ghost predicate LastWins(index: Index, described: seq<DbInstance>)
  {
    forall id :: id in index.byId ==> LastAt(described, id) < |described| && index.byId[id] == described[LastAt(described, id)]
  }

  /** The keys follow the order of their first occurrence (as
      Profiles.InFirstOrder does for profile names). */
  ghost predicate InFirstOrder(index: Index, described: seq<DbInstance>)
  {
    forall a, b :: 0 <= a < b < |index.keys| ==> FirstAt(described, index.keys[a]) < FirstAt(described, index.keys[b])
  }

  ghost predicate IndexOf(index: Index, described: seq<DbInstance>)
  {
    KeysListed(index) && KeysOccur(index, described) && LastWins(index, described) && InFirstOrder(index, described)
  }

  lemma StepListed(index: Index, d: DbInstance)
    requires KeysListed(index)
    ensures KeysListed(Store(index, d))
  {
    var id := d.identifier;
    if id !in index.byId {
      var next := Store(index, d);
      assert next.keys == index.keys + [id];
      forall a | 0 <= a < |index.keys| ensures next.keys[a] != id {
        assert next.keys[a] == index.keys[a] && index.keys[a] in index.keys;
      }
    }
  }

  /** How first and last positions move when an instance is appended after
      the ones that produced index. */
  ghost predicate PositionsAfterAppend(index: Index, init: seq<DbInstance>, d: DbInstance)
  {
    && (forall id :: id in index.byId ==> FirstAt(init + [d], id) == FirstAt(init, id))
    && (forall id :: id !in index.byId ==>
          FirstAt(init + [d], id) == if d.identifier == id then |init| else |init| + 1)
    && (forall id :: id != d.identifier ==>
          LastAt(init + [d], id) == (if LastAt(init, id) < |init| then LastAt(init, id) else |init| + 1))
    && LastAt(init + [d], d.identifier) == |init|
  }

  lemma AppendMovesPositions(index: Index, init: seq<DbInstance>, d: DbInstance)
    requires KeysOccur(index, init)
    ensures PositionsAfterAppend(index, init, d)
  {
    forall id {
      FirstAtOfAppended(init, d, id);
    }
    forall id {
      LastAtOfAppended(init, d, id);
    }
  }

  lemma StepOccur(index: Index, init: seq<DbInstance>, d: DbInstance)
    requires KeysOccur(index, init) && PositionsAfterAppend(index, init, d)
    ensures KeysOccur(Store(index, d), init + [d])
  {
  }

  lemma StepLast(index: Index, init: seq<DbInstance>, d: DbInstance)
    requires LastWins(index, init) && PositionsAfterAppend(index, init, d)
    ensures LastWins(Store(index, d), init + [d])
  {
    var described := init + [d];
    var next := Store(index, d);
    forall id | id in next.byId ensures LastAt(described, id) < |described| && next.byId[id] == described[LastAt(described, id)] {
      if id != d.identifier {
        assert described[LastAt(init, id)] == init[LastAt(init, id)];
      }
    }
  }

  lemma StepOrder(index: Index, init: seq<DbInstance>, d: DbInstance)
    requires KeysListed(index) && KeysOccur(index, init) && InFirstOrder(index, init)
    requires PositionsAfterAppend(index, init, d)
    ensures InFirstOrder(Store(index, d), init + [d])
  {
    var described := init + [d];
    var next := Store(index, d);
    if d.identifier !in index.byId {
      assert next.keys == index.keys + [d.identifier];
      forall a, b | 0 <= a < b < |next.keys|
        ensures FirstAt(described, next.keys[a]) < FirstAt(described, next.keys[b])
      {
        assert next.keys[a] == index.keys[a] && index.keys[a] in index.keys;
        if b < |index.keys| {
          assert next.keys[b] == index.keys[b] && index.keys[b] in index.keys;
        }
      }
    }
  }

  /** getDatabaseInstances maps every described identifier, once, to the
      last instance described under it, in the order identifiers first
      appear. */
  lemma {:induction false} IndexedFacts(described: seq<DbInstance>)
    ensures IndexOf(Indexed(described), described)
    decreases |described|
  {
    if described != [] {
      var n := |described| - 1;
      var init, d := described[..n], described[n];
      assert described == init + [d];
      IndexedFacts(init);
      var index := Indexed(init);
      AppendMovesPositions(index, init, d);
      StepListed(index, d);
      StepOccur(index, init, d);
      StepLast(index, init, d);
      StepOrder(index, init, d);
    }
  }

  /** With two instances described under one identifier, the prompt offers
      the identifier once and the later instance is the one used. */
  lemma LaterDuplicateOverwrites(first: DbInstance, other: DbInstance, second: DbInstance)
    requires first.identifier == second.identifier != other.identifier
    ensures Indexed([first, other, second]) == Index([first.identifier, other.identifier],
                                                     map[first.identifier := second, other.identifier := other])
  {
    var all := [first, other, second];
    assert all[..2] == [first, other];
    assert all[..2][..1] == [first];
    assert all[..2][..1][..0] == [];
    assert Indexed([first]) == Index([first.identifier], map[first.identifier := first]);
    assert Indexed([first, other]) == Index([first.identifier, other.identifier],
                                            map[first.identifier := first, other.identifier := other]);
  }

  // ---------------------------------------------------------------------
  // Prompts and the bastion

  /** The answer to a choice prompt: one of the offered choices, given by
      the user as a position among them. */
  function Pick(choices: seq<string>, answer: nat): (c: string)
    requires choices != []
    ensures c in choices
  {
    choices[answer % |choices|]
  }

  /** getBastionInstance: the id of the first instance of the first
      reservation, None where that is missing (the Bastion constructor then
      fails on null). */
  function BastionInstanceId(reservations: seq<Reservation>): Option<string>
  {
    if reservations == [] || reservations[0].instances == [] then None
    else Some(reservations[0].instances[0].instanceId)
  }

  /** The pick looks no further than the first reservation: later
      reservations and later instances never matter. */
  lemma BastionIsFirstOfFirst(reservations: seq<Reservation>, later: seq<Reservation>, more: seq<Ec2Instance>)
    ensures reservations != [] ==> BastionInstanceId(reservations + later) == BastionInstanceId(reservations)
    ensures reservations != [] && reservations[0].instances != [] ==>
      BastionInstanceId([Reservation(reservations[0].instances + more)] + later) == Some(reservations[0].instances[0].instanceId)
    ensures BastionInstanceId([Reservation([])] + later) == None
    ensures BastionInstanceId(reservations) == None <==> reservations == [] || reservations[0].instances == []
  {
    if reservations != [] {
      assert (reservations + later)[0] == reservations[0];
    }
  }

  // ---------------------------------------------------------------------
  // The session command

  /** The JSON values json_encode is given. */
  datatype Json = JNull | JString(s: string) | JList(items: seq<Json>) | JObject(members: seq<(string, Json)>)

  /** The value an absent endpoint field reads as (null), and `(string)` of it. */
  function HostValue(endpoint: Option<Endpoint>): Json
  {
    match endpoint
    case Some(e) => JString(e.address)
    case None => JNull
  }

  function PortText(endpoint: Option<Endpoint>): string
  {
    match endpoint
    case Some(e) => NatToDecimal(e.port)
    case None => ""
  }

  /** The --parameters document of the port-forwarding session. */
  function SessionParameters(endpoint: Option<Endpoint>, localPort: nat): Json
  {
    JObject([("host", JList([HostValue(endpoint)])),
             ("portNumber", JList([JString(PortText(endpoint))])),
             ("localPortNumber", JList([JString(NatToDecimal(localPort))]))])
  }

  /** The argument list of the `aws ssm start-session` process. */
  function SessionArguments(profile: string, target: string, parameters: string): seq<string>
  {
    ["aws", "ssm", "start-session",
     "--profile", profile,
     "--target", target,
     "--document-name", PortForwardingDocument,
     "--parameters", parameters]
  }

  /** A reading of the session command as the AWS CLI takes it: after the
      three command words come flag-value pairs; the value of the first pair
      with the flag. */
  function OptionValue(pairs: seq<string>, flag: string): Option<string>
    decreases |pairs|
  {
    if |pairs| < 2 then None
    else if pairs[0] == flag then Some(pairs[1])
    else OptionValue(pairs[2..], flag)
  }

  /** The value of a member of a JSON object, as a JSON reader finds it. */
  function Member(j: Json, key: string): Option<Json>
  {
    match j
    case JObject(members) => MemberOf(members, key)
    case _ => None
  }

  function MemberOf(members: seq<(string, Json)>, key: string): Option<Json>
  {
    if members == [] then None
    else if members[0].0 == key then Some(members[0].1)
    else MemberOf(members[1..], key)
  }

  /** The session command starts an SSM session whose flags read back as the
      profile, the bastion, the port-forwarding document and the encoded
      parameters, however odd the profile or the id look. */
  lemma {:induction false} SessionArgumentsReadBack(profile: string, target: string, parameters: string)
    ensures var args := SessionArguments(profile, target, parameters);
      && args[..3] == ["aws", "ssm", "start-session"]
      && |args[3..]| % 2 == 0
      && OptionValue(args[3..], "--profile") == Some(profile)
      && OptionValue(args[3..], "--target") == Some(target)
      && OptionValue(args[3..], "--document-name") == Some(PortForwardingDocument)
      && OptionValue(args[3..], "--parameters") == Some(parameters)
  {
    var pairs := SessionArguments(profile, target, parameters)[3..];
    var p1, p2, p3 := pairs[2..], pairs[2..][2..], pairs[2..][2..][2..];
    assert p1 == ["--target", target, "--document-name", PortForwardingDocument, "--parameters", parameters];
    assert p2 == ["--document-name", PortForwardingDocument, "--parameters", parameters];
    assert p3 == ["--parameters", parameters];
    assert OptionValue(p3, "--parameters") == Some(parameters);
    assert OptionValue(p2, "--parameters") == Some(parameters);
    assert OptionValue(p1, "--parameters") == Some(parameters);
    assert OptionValue(p2, "--document-name") == Some(PortForwardingDocument);
    assert OptionValue(p1, "--document-name") == Some(PortForwardingDocument);
  }

  /** The parameters name the database endpoint as the remote host, and
      carry the database port and the local port as single decimal strings
      that read back as those numbers. */
  lemma {:induction false} SessionParametersReadBack(endpoint: Endpoint, localPort: nat)
    ensures var params := SessionParameters(Some(endpoint), localPort);
      && Member(params, "host") == Some(JList([JString(endpoint.address)]))
      && Member(params, "portNumber") == Some(JList([JString(NatToDecimal(endpoint.port))]))
      && Member(params, "localPortNumber") == Some(JList([JString(NatToDecimal(localPort))]))
    ensures var s := NatToDecimal(endpoint.port);
      (forall i :: 0 <= i < |s| ==> IsDigit(s[i])) && DecimalValue(s) == endpoint.port
    ensures var s := NatToDecimal(localPort);
      (forall i :: 0 <= i < |s| ==> IsDigit(s[i])) && DecimalValue(s) == localPort
  {
    var params := SessionParameters(Some(endpoint), localPort);
    var members := params.members;
    assert members[1..] == [members[1], members[2]];
    assert members[1..][1..] == [members[2]];
    assert MemberOf(members[1..], "portNumber") == Some(JList([JString(NatToDecimal(endpoint.port))]));
    assert MemberOf(members[1..][1..], "localPortNumber") == Some(JList([JString(NatToDecimal(localPort))]));
    assert MemberOf(members[1..], "localPortNumber") == Some(JList([JString(NatToDecimal(localPort))]));
    NatToDecimalReadsBack(endpoint.port);
    NatToDecimalReadsBack(localPort);
  }

  // ---------------------------------------------------------------------
  // The session's output

  datatype ChunkType = Out | Err

  datatype Chunk = Chunk(kind: ChunkType, data: string)

  /** The subprocess as the command sees it: its output chunks in the order
      the iterator yields them, its exit code, and whether the iteration
      ends in an exception. */
  datatype ProcessScript = ProcessScript(chunks: seq<Chunk>, exitCode: int, throws: bool)

  /** The line written for one chunk. */
  function Tag(c: Chunk): string
  {
    match c.kind
    case Out => Trim(c.data)
    case Err => "<error>" + Trim(c.data) + "</error>"
  }

  /** What is shown of a chunk is its data with only the surrounding
      whitespace cut off, error output marked as such. */
  lemma TagShowsTrimmedData(c: Chunk) returns (i: nat, j: nat)
    ensures i <= j <= |c.data|
    ensures AllTrimmable(c.data[..i]) && AllTrimmable(c.data[j..])
    ensures i < j ==> !IsTrimmable(c.data[i]) && !IsTrimmable(c.data[j - 1])
    ensures c.kind == Out ==> Tag(c) == c.data[i..j]
    ensures c.kind == Err ==> Tag(c) == "<error>" + c.data[i..j] + "</error>"
    ensures c.kind == Out ==> Trim(Tag(c)) == Tag(c)
  {
    i, j := TrimSlice(c.data);
    TrimIdempotent(c.data);
  }

  // ---------------------------------------------------------------------
  // The run

  /** The EC2 calls, the process start and the console lines, in order. */
  datatype Event =
    | Text(line: string)
    | StartInstance(instanceId: string)
    | WaitRunning(instanceId: string)
    | StopInstance(instanceId: string)
    | StartProcess(arguments: seq<string>)

  /** Success is Command::SUCCESS; a run that ends in an exception crashed. */
  datatype Status = Success | Crashed

  datatype Outcome = Outcome(status: Status, events: seq<Event>)

  /** The console lines for the chunks, in chunk order. */
  function Shown(chunks: seq<Chunk>): (r: seq<Event>)
    ensures |r| == |chunks|
    ensures forall k :: 0 <= k < |chunks| ==> r[k] == Text(Tag(chunks[k]))
  {
    seq(|chunks|, k requires 0 <= k < |chunks| => Text(Tag(chunks[k])))
  }

  /** The inputs of one run: the --profile option, the config sections, the
      two prompt answers, the RDS and EC2 query results, whether the
      start request, the waiter and the stop request throw, the port
      findAvailablePort returns and the subprocess. */
  datatype Inputs = Inputs(
    profileOption: Option<string>,
    sections: seq<Profiles.Section>,
    profileAnswer: nat,
    described: seq<DbInstance>,
    instanceAnswer: nat,
    reservations: seq<Reservation>,
    startFails: bool,
    waiterFails: bool,
    stopFails: bool,
    localPort: nat,
    process: ProcessScript)

  /** The profile in use, when there is one: the option, or the answer to
      the prompt over Profiles::list(), which fails when the list is empty. */
  function ProfileOf(inputs: Inputs): Option<string>
  {
    if inputs.profileOption.Some? then inputs.profileOption
    else
      var choices := Profiles.List(inputs.sections);
      if choices == [] then None else Some(Pick(choices, inputs.profileAnswer))
  }

  /** The chosen database instance, when the prompt has something to offer. */
  function InstanceOf(inputs: Inputs): Option<DbInstance>
  {
    var index := Indexed(inputs.described);
    if index.keys == [] then None
    else
      IndexedFacts(inputs.described);
      Some(index.byId[Pick(index.keys, inputs.instanceAnswer)])
  }

  /** Whether the run reaches the try block. */
  predicate EntersTry(inputs: Inputs)
  {
    ProfileOf(inputs).Some? && InstanceOf(inputs).Some? && BastionInstanceId(inputs.reservations).Some? && !inputs.startFails && !inputs.waiterFails
  }

  /** execute() as a function of its inputs. */
  function Proxy(inputs: Inputs, encode: Json -> string): Outcome
  {
    match (ProfileOf(inputs), InstanceOf(inputs), BastionInstanceId(inputs.reservations))
    case (Some(profile), Some(db), Some(id)) => Tunnel(profile, db, id, inputs, encode)
    case _ => Outcome(Crashed, [])
  }

  /** From the start of the bastion on. */
  function Tunnel(profile: string, db: DbInstance, id: string, inputs: Inputs, encode: Json -> string): Outcome
  {
    if inputs.startFails then Outcome(Crashed, [StartInstance(id)])
    else if inputs.waiterFails then Outcome(Crashed, Waiting(id))
    else Outcome(if inputs.process.throws || inputs.stopFails then Crashed else Success, Waiting(id) + Session(profile, db, id, inputs, encode))
  }

  /** Starting the bastion and waiting for it to run. */
  function Waiting(id: string): seq<Event>
  {
    [StartInstance(id), Text(WaitingText), WaitRunning(id)]
  }

  /** The try block and its finally clause: the session process, one line
      per output chunk, and the stop. */
  function Session(profile: string, db: DbInstance, id: string, inputs: Inputs, encode: Json -> string): seq<Event>
  {
    var args := SessionArguments(profile, id, encode(SessionParameters(db.endpoint, inputs.localPort)));
    [Text(ProxyingText), StartProcess(args)] + Shown(inputs.process.chunks) + [Text(StoppingText), StopInstance(id)]
  }

  /** The calls and lines recorded so far. */
  class Recorder {
    var events: seq<Event>

    constructor()
      ensures events == []
    {
      events := [];
    }

    method Add(e: Event)
      modifies this
      ensures events == old(events) + [e]
    {
      events := events + [e];
    }
  }

  /** src/AWS/Bastion.php: the bastion host behind its EC2 client, whose
      calls go to the recorder. */
  class Bastion {
    const instanceId: string
    const log: Recorder

    constructor(instanceId: string, log: Recorder)
      ensures this.instanceId == instanceId && this.log == log
    {
      this.instanceId := instanceId;
      this.log := log;
    }

    /** startInstances; `fails` is whether the request throws. */
    method Start(fails: bool) returns (thrown: bool)
      modifies log
      ensures log.events == old(log.events) + [StartInstance(instanceId)]
      ensures thrown == fails
    {
      log.Add(StartInstance(instanceId));
      thrown := fails;
    }

    /** stopInstances; `fails` is whether the request throws. */
    method Stop(fails: bool) returns (thrown: bool)
      modifies log
      ensures log.events == old(log.events) + [StopInstance(instanceId)]
      ensures thrown == fails
    {
      log.Add(StopInstance(instanceId));
      thrown := fails;
    }

    /** waitUntil('InstanceRunning'); `fails` is whether the waiter gives up. */
    method WaitRunning(fails: bool) returns (thrown: bool)
      modifies log
      ensures log.events == old(log.events) + [Event.WaitRunning(instanceId)]
      ensures thrown == fails
    {
      log.Add(Event.WaitRunning(instanceId));
      thrown := fails;
    }
  }

  /** execute(): the calls and lines it records after what `log` already
      holds, and how it ends. */
  method Execute(inputs: Inputs, encode: Json -> string, log: Recorder) returns (status: Status)
    modifies log
    ensures log.events == old(log.events) + Proxy(inputs, encode).events
    ensures status == Proxy(inputs, encode).status
  {
    var profile := ProfileOf(inputs);
    if profile.None? {
      return Crashed;
    }
    var instances := GetDatabaseInstances(inputs.described);
    if instances.keys == [] {
      return Crashed;
    }
    IndexedFacts(inputs.described);
    var db := instances.byId[Pick(instances.keys, inputs.instanceAnswer)];
    var bastionId := BastionInstanceId(inputs.reservations);
    if bastionId.None? {
      return Crashed;
    }
    var bastion := new Bastion(bastionId.value, log);
    status := RunTunnel(bastion, profile.value, db, inputs, encode);
  }

  /** `$bastion->start()`, the waiting line and `$bastion->waitRunning()`;
      a failed start request ends it at once. */
  method StartAndWait(bastion: Bastion, startFails: bool, waitFails: bool) returns (thrown: bool)
    modifies bastion.log
    ensures bastion.log.events == old(bastion.log.events)
      + (if startFails then [StartInstance(bastion.instanceId)] else Waiting(bastion.instanceId))
    ensures thrown == (startFails || waitFails)
  {
    thrown := bastion.Start(startFails);
    if thrown {
      return;
    }
    bastion.log.Add(Text(WaitingText));
    thrown := bastion.WaitRunning(waitFails);
  }

  /** Start the bastion, wait for it, and run the session. */
  method RunTunnel(bastion: Bastion, profile: string, db: DbInstance, inputs: Inputs, encode: Json -> string)
    returns (status: Status)
    modifies bastion.log
    ensures bastion.log.events == old(bastion.log.events) + Tunnel(profile, db, bastion.instanceId, inputs, encode).events
    ensures status == Tunnel(profile, db, bastion.instanceId, inputs, encode).status
  {
    ghost var before := bastion.log.events;
    ghost var tunnel := Tunnel(profile, db, bastion.instanceId, inputs, encode);
    var thrown := StartAndWait(bastion, inputs.startFails, inputs.waiterFails);
    if thrown {
      assert tunnel.status == Crashed && bastion.log.events == before + tunnel.events;
      return Crashed;
    }
    var stopThrown := ProxySession(bastion, profile, db, inputs, encode);
    status := if inputs.process.throws || stopThrown then Crashed else Success;
    assert tunnel.events == Waiting(bastion.instanceId) + Session(profile, db, bastion.instanceId, inputs, encode);
  }

  /** The try block and its finally clause: the session is started, its
      output relayed, and the bastion stopped; `stopThrown` is whether the
      stop request in the finally clause throws. */
  method ProxySession(bastion: Bastion, profile: string, db: DbInstance, inputs: Inputs, encode: Json -> string)
    returns (stopThrown: bool)
    modifies bastion.log
    ensures bastion.log.events == old(bastion.log.events) + Session(profile, db, bastion.instanceId, inputs, encode)
    ensures stopThrown == inputs.stopFails
  {
    var log := bastion.log;
    log.Add(Text(ProxyingText));
    var args := SessionArguments(profile, bastion.instanceId, encode(SessionParameters(db.endpoint, inputs.localPort)));
    log.Add(StartProcess(args));
    ghost var before := log.events;
    var chunks := inputs.process.chunks;
    var i := 0;
    while i < |chunks|
      invariant 0 <= i <= |chunks|
      invariant log.events == before + Shown(chunks[..i])
    {
      assert Shown(chunks[..i + 1]) == Shown(chunks[..i]) + [Text(Tag(chunks[i]))];
      log.Add(Text(Tag(chunks[i])));
      i := i + 1;
    }
    assert chunks[..i] == chunks;
    log.Add(Text(StoppingText));
    stopThrown := bastion.Stop(inputs.stopFails);
  }

  // ---------------------------------------------------------------------
  // Properties of a run

  function Stops(events: seq<Event>): nat
  {
    if events == [] then 0 else (if events[0].StopInstance? then 1 else 0) + Stops(events[1..])
  }

  lemma {:induction false} StopsOfAppend(a: seq<Event>, b: seq<Event>)
    ensures Stops(a + b) == Stops(a) + Stops(b)
    decreases |a|
  {
    if a == [] {
      assert a + b == b;
    } else {
      assert (a + b)[1..] == a[1..] + b;
      StopsOfAppend(a[1..], b);
    }
  }

  lemma {:induction false} NoStops(events: seq<Event>)
    requires forall k :: 0 <= k < |events| ==> !events[k].StopInstance?
    ensures Stops(events) == 0
    decreases |events|
  {
    if events != [] {
      NoStops(events[1..]);
    }
  }

  /** Once the try block is entered the bastion is stopped exactly once, as
      the last thing the run does, whether the output ends normally or in an
      exception; a run that does not enter it never stops the bastion. */
  lemma StopExactlyOnceOnceTryEntered(inputs: Inputs, encode: Json -> string)
    ensures var events := Proxy(inputs, encode).events;
      && Stops(events) == (if EntersTry(inputs) then 1 else 0)
      && (EntersTry(inputs) ==> events[|events| - 1] == StopInstance(BastionInstanceId(inputs.reservations).value))
  {
    var events := Proxy(inputs, encode).events;
    if EntersTry(inputs) {
      var id := BastionInstanceId(inputs.reservations).value;
      var head := [StartInstance(id), Text(WaitingText), WaitRunning(id)] + [Text(ProxyingText), StartProcess(events[4].arguments)];
      var shown := Shown(inputs.process.chunks);
      var tail := [Text(StoppingText), StopInstance(id)];
      assert events == head + shown + tail;
      StopsOfAppend(head + shown, tail);
      StopsOfAppend(head, shown);
      NoStops(head);
      NoStops(shown);
      assert tail[1..] == [StopInstance(id)];
      assert Stops(tail[1..]) == 1 + Stops([]);
    } else {
      NoStops(events);
    }
  }

  /** The bastion is started, then waited for, then the session process is
      started, before any output; the session targets the bastion and uses
      the profile in use. */
  lemma StartThenWaitThenSession(inputs: Inputs, encode: Json -> string)
    requires EntersTry(inputs)
    ensures var events, id := Proxy(inputs, encode).events, BastionInstanceId(inputs.reservations).value;
      && |events| == 7 + |inputs.process.chunks|
      && events[0] == StartInstance(id)
      && events[2] == WaitRunning(id)
      && events[4].StartProcess?
      && OptionValue(events[4].arguments[3..], "--target") == Some(id)
      && OptionValue(events[4].arguments[3..], "--profile") == ProfileOf(inputs)
      && (forall k :: 0 <= k < |events| && k != 4 ==> !events[k].StartProcess?)
  {
    var id := BastionInstanceId(inputs.reservations).value;
    var db := InstanceOf(inputs).value;
    var params := encode(SessionParameters(db.endpoint, inputs.localPort));
    SessionArgumentsReadBack(ProfileOf(inputs).value, id, params);
  }

  /** A stop request that throws crashes the command even after a clean
      session, though the stop was requested once, as the last call. */
  lemma StopFailureCrashesCleanSession(inputs: Inputs, encode: Json -> string)
    requires EntersTry(inputs) && !inputs.process.throws && inputs.stopFails
    ensures var out := Proxy(inputs, encode);
      && out.status == Crashed
      && Stops(out.events) == 1
      && out.events[|out.events| - 1] == StopInstance(BastionInstanceId(inputs.reservations).value)
  {
    StopExactlyOnceOnceTryEntered(inputs, encode);
  }

  /** When no bastion is found the run crashes before starting anything, so
      there is nothing to stop. */
  lemma NoBastionNoCalls(inputs: Inputs, encode: Json -> string)
    requires BastionInstanceId(inputs.reservations).None?
    ensures Proxy(inputs, encode) == Outcome(Crashed, [])
  {
  }

  /** When the start request or the wait for the bastion fails, the start has
      been requested but no stop is ever requested and no session is opened. */
  lemma StartOrWaitFailureNeverStops(inputs: Inputs, encode: Json -> string)
    requires ProfileOf(inputs).Some? && InstanceOf(inputs).Some? && BastionInstanceId(inputs.reservations).Some?
    requires inputs.startFails || inputs.waiterFails
    ensures var out, id := Proxy(inputs, encode), BastionInstanceId(inputs.reservations).value;
      && out.status == Crashed
      && StartInstance(id) in out.events
      && forall k :: 0 <= k < |out.events| ==> !out.events[k].StopInstance? && !out.events[k].StartProcess?
  {
  }

  /** The command's outcome does not depend on the session's exit code; once
      the try block is entered it crashes exactly when the session or the
      stop request in the finally clause throws. */
  lemma ExitCodeIsIgnored(inputs: Inputs, encode: Json -> string, exitCode: int)
    requires EntersTry(inputs)
    ensures var other := inputs.(process := inputs.process.(exitCode := exitCode));
      Proxy(other, encode) == Proxy(inputs, encode)
    ensures Proxy(inputs, encode).status == Success <==> !inputs.process.throws && !inputs.stopFails
  {
    var other := inputs.(process := inputs.process.(exitCode := exitCode));
    assert ProfileOf(other) == ProfileOf(inputs);
  }

  /** The session's output is shown line by line in the order it came, each
      line right after the process start. */
  lemma OutputInChunkOrder(inputs: Inputs, encode: Json -> string)
    requires EntersTry(inputs)
    ensures var events, chunks := Proxy(inputs, encode).events, inputs.process.chunks;
      forall k :: 0 <= k < |chunks| ==> events[5 + k] == Text(Tag(chunks[k]))
  {
    var id := BastionInstanceId(inputs.reservations).value;
    var db := InstanceOf(inputs).value;
    var args := SessionArguments(ProfileOf(inputs).value, id, encode(SessionParameters(db.endpoint, inputs.localPort)));
    var head := Waiting(id) + [Text(ProxyingText), StartProcess(args)];
    var shown := Shown(inputs.process.chunks);
    var events := Proxy(inputs, encode).events;
    assert events == head + shown + [Text(StoppingText), StopInstance(id)];
    assert |head| == 5;
    forall k | 0 <= k < |shown|
      ensures events[5 + k] == shown[k]
    {
    }
  }

  /** With the --profile option the config is not consulted, and an empty
      profile list only matters when the option is absent. */
  lemma ProfileOptionWins(inputs: Inputs)
    ensures inputs.profileOption.Some? ==> ProfileOf(inputs) == inputs.profileOption
    ensures inputs.profileOption.None? ==>
      (ProfileOf(inputs).Some? <==> Profiles.List(inputs.sections) != [])
    ensures inputs.profileOption.None? && ProfileOf(inputs).Some? ==> ProfileOf(inputs).value in Profiles.List(inputs.sections)
  {
  }

  /** The instance connected to is the last one described under the chosen
      identifier. */
  lemma ChosenInstanceWasDescribed(inputs: Inputs)
    ensures InstanceOf(inputs).Some? <==> inputs.described != []
    ensures InstanceOf(inputs).Some? ==> 
      var id := InstanceOf(inputs).value.identifier;
      && LastAt(inputs.described, id) < |inputs.described|
      && InstanceOf(inputs).value == inputs.described[LastAt(inputs.described, id)]
  {
    IndexedFacts(inputs.described);
    var index := Indexed(inputs.described);
    if inputs.described != [] {
      var id := inputs.described[0].identifier;
      assert FirstAt(inputs.described, id) == 0;
      assert id in index.keys;
    }
    if index.keys != [] {
      var id := Pick(index.keys, inputs.instanceAnswer);
      assert index.byId[id] == inputs.described[LastAt(inputs.described, id)];
    }
  }

}
