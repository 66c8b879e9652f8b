/**
 The simulation generator: loading expressions, grouping them by channel id,
 assembling one simulation channel per group, and saving the result. The
 channel builder, the JSON serialiser and the file system are parameters.
 */
module PassThruSimulationGenerator {
  import opened Base
  import opened Text
  import opened Sequences
  import opened Paths
  import opened J2534Objects
  import opened PassThruStructs
  import opened PassThruExpressions

  /** One message read by a simulation and the responses it answers with. */
  datatype SimulationMessagePair = SimulationMessagePair(messageRead: PassThruMsg, messageResponses: seq<PassThruMsg>)

  /** A simulated channel: its id, connection settings, filters and message pairs. */
  datatype SimulationChannel = SimulationChannel(
    channelId: uint32,
    channelProtocol: uint32,
    channelBaudRate: uint32,
    channelConnectFlags: uint32,
    messageFilters: seq<J2534Filter>,
    messagePairs: seq<SimulationMessagePair>)

  /** The generator's public state; None stands for `null`. */
  datatype Generator = Generator(
    passThruLogFile: string,
    expressionsFile: Option<string>,
    simulationFile: Option<string>,
    simulationChannels: Option<seq<SimulationChannel>>,
    expressionsLoaded: Option<seq<Expression>>)

  // ---------------------------------------------------------------------------
  // Construction

  /** `new PassThruSimulationGenerator(PassThruLogName, GeneratedExpressions)`. */
  function NewGenerator(passThruLogName: string, generatedExpressions: seq<Expression>): (g: Generator)
    ensures g.passThruLogFile == passThruLogName && g.expressionsLoaded == Some(generatedExpressions)
    ensures g.expressionsFile.None? && g.simulationFile.None? && g.simulationChannels.None?
  {
    Generator(passThruLogName, None, None, None, Some(generatedExpressions))
  }

  datatype LoadError =
    | NoExpressionsBuilt(fileName: string) // DataException
    | InvalidLogFileName                   // ArgumentException from GetFileNameWithoutExtension

  /**
   What an expressions generator offers the loader: its file names, the
   expressions `GenerateLogExpressions()` returns, and its `ExpressionsBuilt`
   array afterwards (None for `null`).
   */
  datatype ExpressionsSource = ExpressionsSource(
    passThruLogFile: string,
    expressionsFile: Option<string>,
    generated: seq<Expression>,
    expressionsBuilt: Option<seq<Expression>>)

  /**
   `LoadPassThruLogFile` and `LoadExpressionsFile` once the expressions
   generator exists: an empty expression set is refused; otherwise the private
   constructor keeps `ExpressionsBuilt` unless it is an empty array, in which
   case it generates again. A `null` array stays `null`, because the
   null-conditional length test is then false. The constructor then names its
   logger after the log file's stem, and `GetFileNameWithoutExtension` throws
   on a log file name holding invalid path characters.
   */
  function LoadGenerator(fileName: string, source: ExpressionsSource): (r: Result<Generator, LoadError>)
    ensures r.Failure? <==> |source.generated| == 0 || HasInvalidPathChars(source.passThruLogFile)
    ensures r.Failure? ==> (r.error == NoExpressionsBuilt(fileName) <==> |source.generated| == 0)
    ensures r.Failure? ==> (r.error == InvalidLogFileName <==> |source.generated| > 0)
    ensures r.Success? ==> r.value.passThruLogFile == source.passThruLogFile && r.value.expressionsFile == source.expressionsFile
    ensures r.Success? ==> r.value.simulationFile.None? && r.value.simulationChannels.None?
    ensures r.Success? && source.expressionsBuilt.Some? && |source.expressionsBuilt.value| > 0 ==>
              r.value.expressionsLoaded == source.expressionsBuilt
    ensures r.Success? && source.expressionsBuilt == Some([]) ==> r.value.expressionsLoaded == Some(source.generated)
    ensures r.Success? && source.expressionsBuilt.None? ==> r.value.expressionsLoaded.None?
  {
    if |source.generated| == 0 then Failure(NoExpressionsBuilt(fileName))
    else if HasInvalidPathChars(source.passThruLogFile) then Failure(InvalidLogFileName)
    else
      var loaded :=
        match source.expressionsBuilt
        case Some(built) => if |built| == 0 then Some(source.generated) else Some(built)
        case None => None;
      Success(Generator(source.passThruLogFile, source.expressionsFile, None, None, loaded))
  }

  /**
   Loading through an expressions generator gives the generator the public
   constructor builds from the same expressions, with the expressions file
   name carried over, whenever the log file name is a valid path.
   */
  lemma LoadMatchesConstructor(fileName: string, source: ExpressionsSource)
    requires |source.generated| > 0 && source.expressionsBuilt.Some?
    requires !HasInvalidPathChars(source.passThruLogFile)
    ensures var built := source.expressionsBuilt.value;
            LoadGenerator(fileName, source)
            == Success(NewGenerator(source.passThruLogFile, if |built| == 0 then source.generated else built)
                         .(expressionsFile := source.expressionsFile))
  {
  }

  // ---------------------------------------------------------------------------
  // Channel ids

  /** The text a field name is compared on: spaces removed, upper-cased. */
  function NormalisedName(name: string): string {
    ToUpperAscii(RemoveAll(name, " "))
  }

  predicate IsChannelIdField(f: Field) {
    Contains(NormalisedName(f.name), "CHANNELID")
  }

  /** The channel id of an expression: 0 without a channel-id field, otherwise the parsed value of the first one. */
  function ChannelIdOf(e: Expression): (r: Result<uint32, ParseError>)
    ensures (forall i :: 0 <= i < |e.fields| ==> !IsChannelIdField(e.fields[i])) ==> r == Success(0)
    ensures r.Failure? ==> exists i :: 0 <= i < |e.fields| && IsChannelIdField(e.fields[i]) && ParseUInt(e.fields[i].value).Failure?
  {
    match FirstIndex(e.fields, IsChannelIdField)
    case None => Success(0)
    case Some(i) => ParseUInt(e.fields[i].value)
  }

  /** The id is read from the first channel-id field; later ones are ignored. */
  lemma FirstFieldDecides(e: Expression, j: nat)
    requires j < |e.fields| && IsChannelIdField(e.fields[j])
    requires forall j' :: 0 <= j' < j ==> !IsChannelIdField(e.fields[j'])
    ensures ChannelIdOf(e) == ParseUInt(e.fields[j].value)
  {
    assert FirstIndex(e.fields, IsChannelIdField) == Some(j);
  }

  /** Every expression has a channel id that parses. */
  predicate AllIdsParse(es: seq<Expression>, idOf: Expression -> Result<uint32, ParseError>) {
    forall i :: 0 <= i < |es| ==> idOf(es[i]).Success?
  }

  /** The channel ids of the expressions, in order; the first that does not parse is the error. */
  function ChannelIds(es: seq<Expression>, idOf: Expression -> Result<uint32, ParseError>): (r: Result<seq<uint32>, ParseError>)
    ensures r.Success? <==> AllIdsParse(es, idOf)
    ensures r.Success? ==> |r.value| == |es|
    ensures r.Success? ==> forall i :: 0 <= i < |es| ==> idOf(es[i]) == Success(r.value[i])
  {
    if |es| == 0 then Success([])
    else
      var init := es[..|es| - 1];
      assert forall i :: 0 <= i < |init| ==> init[i] == es[i];
      var ids :- ChannelIds(init, idOf);
      var id :- idOf(es[|es| - 1]);
      Success(ids + [id])
  }

  // ---------------------------------------------------------------------------
  // Grouping (`_generateGroupedIds`)

  /** The expressions whose id is `k`, in order, given the id of every expression. */
  function WithId(es: seq<Expression>, ids: seq<uint32>, k: uint32): (r: seq<Expression>)
    requires |ids| == |es|
    ensures |r| <= |es|
  {
    if |es| == 0 then []
    else
      var rest := WithId(es[..|es| - 1], ids[..|ids| - 1], k);
      if ids[|ids| - 1] == k then rest + [es[|es| - 1]] else rest
  }

  /** An id has expressions exactly when some expression carries it. */
  lemma {:induction false} WithIdNonEmpty(es: seq<Expression>, ids: seq<uint32>, k: uint32)
    requires |ids| == |es|
    ensures |WithId(es, ids, k)| > 0 <==> exists i :: 0 <= i < |ids| && ids[i] == k
  {
    if |es| > 0 {
      var init := ids[..|ids| - 1];
      assert forall i :: 0 <= i < |init| ==> init[i] == ids[i];
      WithIdNonEmpty(es[..|es| - 1], init, k);
    }
  }

  /** Each expression filed under `k` is an input expression whose id is `k`. */
  lemma {:induction false} WithIdMembers(es: seq<Expression>, ids: seq<uint32>, k: uint32)
    requires |ids| == |es|
    ensures forall x :: x in WithId(es, ids, k) ==> exists i :: 0 <= i < |es| && es[i] == x && ids[i] == k
  {
    if |es| > 0 {
      var init := es[..|es| - 1];
      var initIds := ids[..|ids| - 1];
      WithIdMembers(init, initIds, k);
      forall x | x in WithId(es, ids, k)
        ensures exists i :: 0 <= i < |es| && es[i] == x && ids[i] == k
      {
        if x in WithId(init, initIds, k) {
          var i :| 0 <= i < |init| && init[i] == x && initIds[i] == k;
          assert es[i] == x && ids[i] == k;
        } else {
          assert es[|es| - 1] == x && ids[|es| - 1] == k;
        }
      }
    }
  }

  /** Append one expression to the group of `id`, opening the group when it is new. */
  function Insert(groups: map<uint32, seq<Expression>>, id: uint32, e: Expression): (r: map<uint32, seq<Expression>>)
    ensures r.Keys == groups.Keys + {id}
    ensures r[id] == (if id in groups then groups[id] else []) + [e]
    ensures forall k :: k in groups && k != id ==> r[k] == groups[k]
    ensures TotalSize(r) == TotalSize(groups) + 1
  {
    TotalSizeAppend(groups, id, e);
    if id !in groups then groups[id := [e]] else groups[id := groups[id] + [e]]
  }

  /**
   Every expression (the NONE-typed ones included) filed under its channel
   id, one after another, with key 0 still present.
   */
  function Bucket(es: seq<Expression>, ids: seq<uint32>): (r: map<uint32, seq<Expression>>)
    requires |ids| == |es|
    ensures forall k :: k in r <==> |WithId(es, ids, k)| > 0
    ensures forall k :: k in r ==> r[k] == WithId(es, ids, k)
    ensures TotalSize(r) == |es|
  {
    if |es| == 0 then map[]
    else Insert(Bucket(es[..|es| - 1], ids[..|ids| - 1]), ids[|ids| - 1], es[|es| - 1])
  }

  /**
   `_generateGroupedIds`: the expressions grouped by channel id, with the
   group for id 0 (expressions without a channel-id field) dropped. A
   channel id that does not parse is an exception that ends the grouping.
   */
  function GroupedIds(es: seq<Expression>, idOf: Expression -> Result<uint32, ParseError>): (r: Result<map<uint32, seq<Expression>>, ParseError>)
    ensures r.Success? <==> AllIdsParse(es, idOf)
    ensures r.Success? ==> 0 !in r.value
    ensures r.Success? ==> forall k :: k in r.value <==> k != 0 && exists i :: 0 <= i < |es| && idOf(es[i]) == Success(k)
    ensures r.Success? ==> forall k, x :: k in r.value && x in r.value[k] ==>
              exists i :: 0 <= i < |es| && es[i] == x && idOf(es[i]) == Success(k)
    ensures r.Success? ==> forall k :: k in r.value ==> multiset(r.value[k]) == multiset(WithId(es, ChannelIds(es, idOf).value, k))
    ensures r.Success? ==> TotalSize(r.value) + |WithId(es, ChannelIds(es, idOf).value, 0)| == |es|
  {
    var ids :- ChannelIds(es, idOf);
    var groups := Bucket(es, ids);
    forall k: uint32
      ensures |WithId(es, ids, k)| > 0 <==> exists i :: 0 <= i < |ids| && ids[i] == k
    {
      WithIdNonEmpty(es, ids, k);
    }
    forall k: uint32
      ensures forall x :: x in WithId(es, ids, k) ==> exists i :: 0 <= i < |es| && es[i] == x && ids[i] == k
    {
      WithIdMembers(es, ids, k);
    }
    if 0 in groups then
      TotalSizeRemove(groups, 0);
      Success(groups - {0})
    else
      assert groups - {0} == groups;
      Success(groups - {0})
  }

  /** The `"-1"` declared as the PTDisconnect default is no channel id: grouping fails on it. */
  lemma MinusOneFailsGrouping(es: seq<Expression>, i: nat, j: nat)
    requires i < |es| && j < |es[i].fields|
    requires IsChannelIdField(es[i].fields[j]) && es[i].fields[j].value == DisconnectChannelIdDefault
    requires forall j' :: 0 <= j' < j ==> !IsChannelIdField(es[i].fields[j'])
    ensures GroupedIds(es, ChannelIdOf).Failure?
  {
    ParseMinusOne();
    FirstFieldDecides(es[i], j);
  }

  /** Of the two PTDisconnect members, `ChannelId` is read as the channel id and `PtCommand` is not. */
  lemma DisconnectFieldsClassified(command: string, channelId: string)
    ensures !IsChannelIdField(Field(DisconnectFieldNames[0], command))
    ensures IsChannelIdField(Field(DisconnectFieldNames[1], channelId))
  {
    ChannelIdNormalised();
    PtCommandNormalised();
    NoContainsShorter("PTCOMMAND", "CHANNELID");
    assert StartsWith("CHANNELID", "CHANNELID");
  }

  lemma ChannelIdNormalised()
    ensures NormalisedName(DisconnectFieldNames[1]) == "CHANNELID"
  {
    var name := DisconnectFieldNames[1];
    RemoveAllAbsent(name, " ");
    var u := ToUpperAscii(name);
    assert u[0] == 'C' && u[1] == 'H' && u[2] == 'A' && u[3] == 'N' && u[4] == 'N';
    assert u[5] == 'E' && u[6] == 'L' && u[7] == 'I' && u[8] == 'D';
  }

  lemma PtCommandNormalised()
    ensures NormalisedName(DisconnectFieldNames[0]) == "PTCOMMAND"
  {
    var name := DisconnectFieldNames[0];
    RemoveAllAbsent(name, " ");
    var u := ToUpperAscii(name);
    assert u[0] == 'P' && u[1] == 'T' && u[2] == 'C' && u[3] == 'O' && u[4] == 'M';
    assert u[5] == 'M' && u[6] == 'A' && u[7] == 'N' && u[8] == 'D';
  }

  /** A text is contained in nothing shorter than itself, and in nothing of its length but itself. */
  lemma {:induction false} NoContainsShorter(s: string, pattern: string)
    requires |s| <= |pattern| && s != pattern
    ensures !Contains(s, pattern)
    decreases |s|
  {
    if |s| > 0 {
      NoContainsShorter(s[1..], pattern);
    }
  }

  /**
   A PTDisconnect expression that keeps its declared members, the channel id
   at its default `"-1"`, makes the grouping fail.
   */
  lemma DefaultDisconnectFailsGrouping(es: seq<Expression>, i: nat, command: string)
    requires i < |es|
    requires es[i].fields == [Field(DisconnectFieldNames[0], command), Field(DisconnectFieldNames[1], DisconnectChannelIdDefault)]
    ensures GroupedIds(es, ChannelIdOf).Failure?
  {
    DisconnectFieldsClassified(command, DisconnectChannelIdDefault);
    MinusOneFailsGrouping(es, i, 1);
  }

  // ---------------------------------------------------------------------------
  // Channel assembly (`GenerateLogSimulation`)

  /** What `BuildChannelsFromExpressions` does for one group: a channel, `null`, or an exception. */
  datatype BuildOutcome = Built(channel: SimulationChannel) | NoChannel | BuildThrew

  /** The channels the groups give, keyed by group id: the groups whose build produced a channel. */
  function BuiltChannels(groups: map<uint32, seq<Expression>>, build: (uint32, seq<Expression>) -> BuildOutcome): map<uint32, SimulationChannel> {
    map k | k in groups && build(k, groups[k]).Built? :: build(k, groups[k]).channel
  }

  /**
   The parallel loop over the groups, taken one group at a time in an
   arbitrary order. A `null` build and a thrown build are logged and skipped;
   a channel is stored under its group id. `order` is the insertion order
   `Dictionary.Values` reports.
   */
  method BuildChannels(groups: map<uint32, seq<Expression>>, build: (uint32, seq<Expression>) -> BuildOutcome)
    returns (built: map<uint32, SimulationChannel>, order: seq<uint32>)
    ensures built == BuiltChannels(groups, build)
    ensures built.Keys <= groups.Keys
    ensures |order| == |built| <= |groups|
    ensures forall i :: 0 <= i < |order| ==> order[i] in built
    ensures forall k :: k in built ==> k in order
    ensures forall i, j :: 0 <= i < j < |order| ==> order[i] != order[j]
  {
    var pending := groups.Keys;
    built := map[];
    order := [];
    while pending != {}
      invariant pending <= groups.Keys
      invariant built.Keys !! pending
      invariant forall k :: k in groups && k !in pending ==>
                  (k in built <==> build(k, groups[k]).Built?) && (k in built ==> built[k] == build(k, groups[k]).channel)
      invariant built.Keys <= groups.Keys
      invariant |order| + |pending| <= |groups.Keys|
      invariant forall i :: 0 <= i < |order| ==> order[i] in built
      invariant forall k :: k in built ==> k in order
      invariant forall i, j :: 0 <= i < j < |order| ==> order[i] != order[j]
      decreases |pending|
    {
      var k :| k in pending;
      pending := pending - {k};
      match build(k, groups[k]) {
        case Built(channel) =>
          // A second channel for the same id is thrown inside the try and caught,
          // so it would only be logged; group ids are distinct, so it never happens.
          if k !in built {
            built := built[k := channel];
            order := order + [k];
          }
        case NoChannel =>
        case BuildThrew =>
      }
    }
    assert built == BuiltChannels(groups, build);
    DistinctCount(order, built.Keys);
  }

  /** A duplicate-free listing of a set has the set's size. */
  lemma {:induction false} DistinctCount(order: seq<uint32>, keys: set<uint32>)
    requires forall i :: 0 <= i < |order| ==> order[i] in keys
    requires forall k :: k in keys ==> k in order
    requires forall i, j :: 0 <= i < j < |order| ==> order[i] != order[j]
    ensures |order| == |keys|
    decreases |order|
  {
    if |order| > 0 {
      var last := order[|order| - 1];
      var init := order[..|order| - 1];
      assert forall k :: k in keys - {last} ==> k in init by {
        forall k | k in keys - {last}
          ensures k in init
        {
          var i :| 0 <= i < |order| && order[i] == k;
          assert i < |order| - 1;
          assert init[i] == k;
        }
      }
      DistinctCount(init, keys - {last});
    } else {
      assert keys == {};
    }
  }

  /** `Dictionary.Values.ToArray()`: the channels in the order their ids were inserted. */
  function ValuesInOrder(built: map<uint32, SimulationChannel>, order: seq<uint32>): (r: seq<SimulationChannel>)
    requires forall i :: 0 <= i < |order| ==> order[i] in built
    requires forall k :: k in built ==> k in order
    ensures |r| == |order|
    ensures forall c :: c in r <==> c in built.Values
  {
    var r := seq(|order|, i requires 0 <= i < |order| => built[order[i]]);
    assert forall c :: c in built.Values ==> c in r by {
      forall c | c in built.Values
        ensures c in r
      {
        var k :| k in built && built[k] == c;
        var i :| 0 <= i < |order| && order[i] == k;
        assert r[i] == c;
      }
    }
    r
  }

  /**
   `arranged` holds the same groups as `groups`, each group's expressions in
   some order: the parallel loop of `_generateGroupedIds` appends them as its
   threads take the lock, not in log order.
   */
  predicate Rearranges(arranged: map<uint32, seq<Expression>>, groups: map<uint32, seq<Expression>>) {
    && arranged.Keys == groups.Keys
    && forall k :: k in groups ==> multiset(arranged[k]) == multiset(groups[k])
  }

  /** One thread schedule's order of a group: the expressions taken one at a time, in any order. */
  method Interleave(group: seq<Expression>) returns (r: seq<Expression>)
    ensures multiset(r) == multiset(group)
  {
    var rest := group;
    r := [];
    while |rest| > 0
      invariant multiset(r) + multiset(rest) == multiset(group)
      decreases |rest|
    {
      var i :| 0 <= i < |rest|;
      assert rest == rest[..i] + [rest[i]] + rest[i + 1..];
      r := r + [rest[i]];
      rest := rest[..i] + rest[i + 1..];
    }
  }

  /** The groups as one run of the parallel loop leaves them. */
  method ArrangeGroups(groups: map<uint32, seq<Expression>>) returns (arranged: map<uint32, seq<Expression>>)
    ensures Rearranges(arranged, groups)
  {
    var pending := groups.Keys;
    arranged := map[];
    while pending != {}
      invariant pending <= groups.Keys
      invariant arranged.Keys == groups.Keys - pending
      invariant forall k :: k in arranged ==> multiset(arranged[k]) == multiset(groups[k])
      decreases |pending|
    {
      var k :| k in pending;
      var group := Interleave(groups[k]);
      arranged := arranged[k := group];
      pending := pending - {k};
    }
  }

  /** Exceptions that escape `GenerateLogSimulation`: both are raised while grouping, before the parallel loop. */
  datatype GenerateError =
    | NoExpressionsLoaded             // ExpressionsLoaded is null: ArgumentNullException from the LINQ filter
    | BadChannelId(cause: ParseError) // a channel id that uint.Parse rejects

  /**
   `GenerateLogSimulation`: group the loaded expressions, build one channel per
   group, and store the channels on the generator. `idOf` reads an
   expression's channel id; the generator's own reader is `ChannelIdOf`. Each
   group reaches the builder in the order one schedule of the parallel
   grouping loop gave it.
   */
  method GenerateLogSimulation(g: Generator, idOf: Expression -> Result<uint32, ParseError>, build: (uint32, seq<Expression>) -> BuildOutcome)
    returns (r: Result<(Generator, seq<SimulationChannel>), GenerateError>)
    ensures r == Failure(NoExpressionsLoaded) <==> g.expressionsLoaded.None?
    ensures r.Success? <==> g.expressionsLoaded.Some? && AllIdsParse(g.expressionsLoaded.value, idOf)
    ensures r.Failure? && g.expressionsLoaded.Some? ==> r.error == BadChannelId(GroupedIds(g.expressionsLoaded.value, idOf).error)
    ensures r.Success? ==> r.value.0 == g.(simulationChannels := Some(r.value.1))
    ensures r.Success? ==> |r.value.1| <= |GroupedIds(g.expressionsLoaded.value, idOf).value|
    ensures r.Success? ==>
              exists arranged :: Rearranges(arranged, GroupedIds(g.expressionsLoaded.value, idOf).value)
                && |r.value.1| == |BuiltChannels(arranged, build)|
                && forall c :: c in r.value.1 <==> c in BuiltChannels(arranged, build).Values
  {
    if g.expressionsLoaded.None? {
      return Failure(NoExpressionsLoaded);
    }
    var grouped := GroupedIds(g.expressionsLoaded.value, idOf);
    if grouped.Failure? {
      return Failure(BadChannelId(grouped.error));
    }
    var arranged := ArrangeGroups(grouped.value);
    var built, order := BuildChannels(arranged, build);
    var channels := ValuesInOrder(built, order);
    return Success((g.(simulationChannels := Some(channels)), channels));
  }

  /** No simulation channel is built for id 0, whatever order the groups were filled in. */
  lemma NoChannelZero(es: seq<Expression>, idOf: Expression -> Result<uint32, ParseError>,
                      arranged: map<uint32, seq<Expression>>, build: (uint32, seq<Expression>) -> BuildOutcome)
    requires AllIdsParse(es, idOf) && Rearranges(arranged, GroupedIds(es, idOf).value)
    ensures 0 !in BuiltChannels(arranged, build)
  {
  }

  // ---------------------------------------------------------------------------
  // Saving (`SaveSimulationFile`)

  /** The name of the default output folder under the working directory. */
  const DefaultOutputFolderName: string := "FulcrumSimulations"

  /** The marker that says a log already sits in the default log location. */
  const DefaultLogsMarker: string := "FulcrumLogs"

  /**
   The file system as the save sees it: the working directory, whether a
   directory exists, and whether creating a directory, writing a file or
   copying one succeeds; and the JSON text the channels serialise to.
   */
  datatype FileSystem = FileSystem(
    currentDirectory: string,
    directoryExists: string -> bool,
    createDirectory: string -> bool,
    writeAllText: (string, string) -> bool,
    copy: (string, string) -> bool,
    serialize: seq<SimulationChannel> -> string)

  /** Exceptions that escape the save: they are raised before its try block. */
  datatype SaveError =
    | InvalidPathCharacters       // the base file name or the output folder: ArgumentException from Path
    | CreateDirectoryFailed(path: string)
    | NoOutputDirectory           // GetDirectoryName returned null: ArgumentNullException
    | ChannelsNotGenerated        // SimulationChannels is null: NullReferenceException

  /** What a save returns: the path (empty on a caught failure), the updated generator, and where a copy went. */
  datatype Saved = Saved(path: string, generator: Generator, copiedTo: Option<string>)

  /** The folder the simulation file goes to: the given one, else `FulcrumSimulations` under the working directory. */
  function OutputFolder(fs: FileSystem, outputLogFileFolder: Option<string>): (r: string)
    ensures outputLogFileFolder.Some? ==> r == outputLogFileFolder.value
    ensures outputLogFileFolder.None? ==> FileName(r) == DefaultOutputFolderName
  {
    match outputLogFileFolder
    case Some(folder) => folder
    case None =>
      DefaultFolderIsFileName(fs.currentDirectory);
      Combine(fs.currentDirectory, DefaultOutputFolderName)
  }

  /** The default folder name is unrooted and free of name breaks, so it ends the combined path. */
  lemma DefaultFolderIsFileName(cwd: string)
    ensures FileName(Combine(cwd, DefaultOutputFolderName)) == DefaultOutputFolderName
  {
    var name := DefaultOutputFolderName;
    assert forall i :: 0 <= i < |name| ==> !IsNameBreak(name[i]);
    var prefix := CombineAsPrefix(cwd, name);
    FileNameAfterPrefix(prefix, name);
  }

  /** The path the simulation file is written to: `<stem of the base file>.ptSim` in the output folder. */
  function FinalOutputPath(fs: FileSystem, baseFileName: string, outputLogFileFolder: Option<string>): (r: string)
    ensures |r| >= |SimulationExtension| && r[|r| - |SimulationExtension|..] == SimulationExtension
    ensures |FileNameWithoutExtension(baseFileName)| > 0 ==>
              FileNameWithoutExtension(r) == FileNameWithoutExtension(baseFileName)
  {
    var folder := OutputFolder(fs, outputLogFileFolder);
    if |FileNameWithoutExtension(baseFileName)| > 0 then
      SimulationPathKeepsStem(folder, baseFileName);
      SimulationPath(folder, baseFileName)
    else SimulationPath(folder, baseFileName)
  }

  /** A second copy goes next to the base file when that is a `\`-separated path outside the default log location. */
  predicate CopyWanted(baseFileName: string): (r: bool)
    ensures DirectorySeparator !in baseFileName ==> !r
    ensures Contains(baseFileName, DefaultLogsMarker) ==> !r
  {
    DirectorySeparator in baseFileName && !Contains(baseFileName, DefaultLogsMarker)
  }

  /**
   Where the second copy goes: beside the base file, under the simulation
   file's stem, when the base file has a directory part.
   */
  function CopyLocation(baseFileName: string, finalOutputPath: string): (r: Option<string>)
    ensures r.Some? <==> DirectoryName(baseFileName).Some?
    ensures r.Some? && |FileNameWithoutExtension(finalOutputPath)| > 0 ==>
              FileNameWithoutExtension(r.value) == FileNameWithoutExtension(finalOutputPath)
  {
    match DirectoryName(baseFileName)
    case None => None
    case Some(localDirectory) =>
      if |FileNameWithoutExtension(finalOutputPath)| > 0 then
        SimulationPathKeepsStem(localDirectory, finalOutputPath);
        Some(SimulationPath(localDirectory, finalOutputPath))
      else Some(SimulationPath(localDirectory, finalOutputPath))
  }

  /**
   The steps inside the try block: write, then copy when wanted. Any failure,
   a `null` directory name for the copy included, is caught and the method
   returns "" leaving the generator as it was.
   */
  function WriteAndCopy(g: Generator, fs: FileSystem, channels: seq<SimulationChannel>, baseFileName: string, finalPath: string): (r: Saved)
    requires |finalPath| > 0
    ensures r.path == "" ==> r.generator == g
    ensures r.path != "" ==> r.path == finalPath && r.generator == g.(simulationFile := Some(finalPath))
    ensures r.copiedTo.Some? ==> CopyWanted(baseFileName) && CopyLocation(baseFileName, finalPath) == r.copiedTo
    ensures r.path != "" <==>
              fs.writeAllText(finalPath, fs.serialize(channels))
              && (CopyWanted(baseFileName) ==>
                    CopyLocation(baseFileName, finalPath).Some? && fs.copy(finalPath, CopyLocation(baseFileName, finalPath).value))
    ensures r.path != "" ==> (r.copiedTo.Some? <==> CopyWanted(baseFileName))
  {
    var failed := Saved("", g, None);
    if !fs.writeAllText(finalPath, fs.serialize(channels)) then failed
    else if !CopyWanted(baseFileName) then Saved(finalPath, g.(simulationFile := Some(finalPath)), None)
    else
      match CopyLocation(baseFileName, finalPath)
      case None => failed
      case Some(copyPath) =>
        if fs.copy(finalPath, copyPath) then Saved(finalPath, g.(simulationFile := Some(finalPath)), Some(copyPath))
        else failed
  }

  /**
   `SaveSimulationFile(BaseFileName, OutputLogFileFolder)`: create the output
   folder, then write the channels and, when wanted, a copy next to the base
   file. The path checks, directory creation and the channel count are outside
   the try block, so their failures escape.
   */
  function SaveSimulationFile(g: Generator, fs: FileSystem, baseFileName: string, outputLogFileFolder: Option<string>): (r: Result<Saved, SaveError>)
    ensures r.Failure? && r.error == InvalidPathCharacters <==>
              HasInvalidPathChars(baseFileName) || HasInvalidPathChars(OutputFolder(fs, outputLogFileFolder))
    ensures r.Failure? <==>
              HasInvalidPathChars(baseFileName) || HasInvalidPathChars(OutputFolder(fs, outputLogFileFolder))
              || !fs.createDirectory(OutputFolder(fs, outputLogFileFolder))
              || DirectoryName(FinalOutputPath(fs, baseFileName, outputLogFileFolder)).None?
              || (!fs.directoryExists(DirectoryName(FinalOutputPath(fs, baseFileName, outputLogFileFolder)).value)
                  && !fs.createDirectory(DirectoryName(FinalOutputPath(fs, baseFileName, outputLogFileFolder)).value))
              || g.simulationChannels.None?
    ensures r.Success? ==> r.value.path == "" || r.value.path == FinalOutputPath(fs, baseFileName, outputLogFileFolder)
    ensures r.Success? && r.value.path == "" ==> r.value.generator == g
    ensures r.Success? && r.value.path != "" ==> r.value.generator == g.(simulationFile := Some(r.value.path))
    ensures r.Success? && r.value.copiedTo.Some? ==> CopyWanted(baseFileName)
    ensures r.Success? ==>
              g.simulationChannels.Some?
              && r.value == WriteAndCopy(g, fs, g.simulationChannels.value, baseFileName, FinalOutputPath(fs, baseFileName, outputLogFileFolder))
    ensures r.Success? ==>
              (r.value.path != "" <==>
                 fs.writeAllText(FinalOutputPath(fs, baseFileName, outputLogFileFolder), fs.serialize(g.simulationChannels.value))
                 && (CopyWanted(baseFileName) ==>
                       CopyLocation(baseFileName, FinalOutputPath(fs, baseFileName, outputLogFileFolder)).Some?
                       && fs.copy(FinalOutputPath(fs, baseFileName, outputLogFileFolder),
                                  CopyLocation(baseFileName, FinalOutputPath(fs, baseFileName, outputLogFileFolder)).value)))
  {
    var folder := OutputFolder(fs, outputLogFileFolder);
    var finalPath := FinalOutputPath(fs, baseFileName, outputLogFileFolder);
    if HasInvalidPathChars(baseFileName) || HasInvalidPathChars(folder) then Failure(InvalidPathCharacters)
    else if !fs.createDirectory(folder) then Failure(CreateDirectoryFailed(folder))
    else
      match DirectoryName(finalPath)
      case None => Failure(NoOutputDirectory)
      case Some(directory) =>
        if !fs.directoryExists(directory) && !fs.createDirectory(directory) then Failure(CreateDirectoryFailed(directory))
        else
          match g.simulationChannels
          case None => Failure(ChannelsNotGenerated)
          case Some(channels) => Success(WriteAndCopy(g, fs, channels, baseFileName, finalPath))
  }

  /** The copy carries the same stem as the simulation file, which carries the stem of the base file. */
  lemma CopyKeepsStem(fs: FileSystem, baseFileName: string, outputLogFileFolder: Option<string>)
    requires |FileNameWithoutExtension(baseFileName)| > 0
    requires DirectoryName(baseFileName).Some?
    ensures FileNameWithoutExtension(CopyLocation(baseFileName, FinalOutputPath(fs, baseFileName, outputLogFileFolder)).value)
            == FileNameWithoutExtension(baseFileName)
  {
    var finalPath := FinalOutputPath(fs, baseFileName, outputLogFileFolder);
    SimulationPathKeepsStem(OutputFolder(fs, outputLogFileFolder), baseFileName);
    SimulationPathKeepsStem(DirectoryName(baseFileName).value, finalPath);
  }
}
