/**
 The reader configuration a simulation plays back with: the constructor's
 defaults, the first-match lookup by protocol, and the once-only loading of
 the supported configurations.
 */
module PassThruSimulationConfiguration {
  import opened Base
  import opened Sequences
  import opened J2534Objects
  import opened PassThruStructs

  /** The number of filter slots a reader configuration holds. */
  const ReaderFilterSlots: nat := 10

  /**
   A reader configuration. Protocol, baud rate and channel flags are the
   numeric values of their enumerations; an empty filter slot is None.
   */
  datatype SimulationConfiguration = SimulationConfiguration(
    readerTimeout: uint32,
    readerMsgCount: uint32,
    responseTimeout: uint32,
    readerBaudRate: uint32,
    readerProtocol: uint32,
    readerChannelFlags: uint32,
    readerFilters: seq<Option<J2534Filter>>,
    readerConfigs: SConfigList)

  /** The defaults a freshly constructed configuration carries besides its protocol and baud rate. */
  predicate HasDefaults(c: SimulationConfiguration) {
    && c.readerMsgCount == 1
    && c.readerTimeout == 100
    && c.responseTimeout == 500
    && c.readerChannelFlags == 0
    && |c.readerFilters| == ReaderFilterSlots
    && (forall i :: 0 <= i < |c.readerFilters| ==> c.readerFilters[i].None?)
    && c.readerConfigs.numberOfParams == 0 && |c.readerConfigs.configList| == 0
  }

  /** `new PassThruSimulationConfiguration(ProtocolInUse, BaudRate)`. */
  function NewSimulationConfiguration(protocolInUse: uint32, baudRate: uint32): (c: SimulationConfiguration)
    ensures c.readerProtocol == protocolInUse && c.readerBaudRate == baudRate
    ensures HasDefaults(c)
  {
    SimulationConfiguration(100, 1, 500, baudRate, protocolInUse, 0, seq(ReaderFilterSlots, _ => None), NewSConfigList(0))
  }

  /**
   `LoadSimulationConfig(ProtocolToUse)` over the supported configurations:
   the first one for the protocol, or None (`null`) when there is none.
   */
  function FindSimulationConfig(supported: seq<SimulationConfiguration>, protocolToUse: uint32): (r: Option<SimulationConfiguration>)
    ensures r.Some? ==> r.value.readerProtocol == protocolToUse && r.value in supported
    ensures r.None? <==> forall i :: 0 <= i < |supported| ==> supported[i].readerProtocol != protocolToUse
  {
    FirstOrNone(supported, (c: SimulationConfiguration) => c.readerProtocol == protocolToUse)
  }

  /** The lookup returns the configuration that comes first among those for the protocol. */
  lemma {:induction false} FindReturnsFirst(before: seq<SimulationConfiguration>, c: SimulationConfiguration, after: seq<SimulationConfiguration>)
    requires forall i :: 0 <= i < |before| ==> before[i].readerProtocol != c.readerProtocol
    ensures FindSimulationConfig(before + [c] + after, c.readerProtocol) == Some(c)
    decreases |before|
  {
    var s := before + [c] + after;
    if |before| == 0 {
      assert s[0] == c;
    } else {
      assert s[1..] == before[1..] + [c] + after;
      FindReturnsFirst(before[1..], c, after);
    }
  }

  // ---------------------------------------------------------------------------
  // Once-only loading (`_field ??= load()`)

  /** A lazily filled static: empty until the first read. */
  datatype Memo<T> = Memo(cached: Option<T>)

  /** Reading a `??=` property: the stored value if present, otherwise the loader's value, which is then stored. */
  function Read<T>(memo: Memo<T>, load: () -> T): (r: (T, Memo<T>))
    ensures r.1 == Memo(Some(r.0))
    ensures memo.cached.Some? ==> r.0 == memo.cached.value && r.1 == memo
    ensures memo.cached.None? ==> r.0 == load()
  {
    match memo.cached
    case Some(v) => (v, memo)
    case None => var v := load(); (v, Memo(Some(v)))
  }

  /** After the first read, every later read returns the same value, whatever loader it is given. */
  lemma ReadIsStable<T>(memo: Memo<T>, first: () -> T, later: () -> T)
    ensures Read(Read(memo, first).1, later) == Read(memo, first)
  {
  }

  /** `LoadSimulationConfig` reading `SupportedConfigurations` through its memo. */
  function LoadSimulationConfig(
    supported: Memo<seq<SimulationConfiguration>>,
    loadConfigurations: () -> seq<SimulationConfiguration>,
    protocolToUse: uint32): (r: (Option<SimulationConfiguration>, Memo<seq<SimulationConfiguration>>))
    ensures r.1.cached.Some?
    ensures r.0 == FindSimulationConfig(r.1.cached.value, protocolToUse)
    ensures supported.cached.Some? ==> r.1 == supported
  {
    var (configs, memo) := Read(supported, loadConfigurations);
    (FindSimulationConfig(configs, protocolToUse), memo)
  }

  /** Two lookups in a row see the same configurations, so the same protocol gives the same answer. */
  lemma LookupIsStable(
    supported: Memo<seq<SimulationConfiguration>>,
    first: () -> seq<SimulationConfiguration>,
    later: () -> seq<SimulationConfiguration>,
    protocolToUse: uint32)
    ensures LoadSimulationConfig(LoadSimulationConfig(supported, first, protocolToUse).1, later, protocolToUse)
            == LoadSimulationConfig(supported, first, protocolToUse)
  {
    ReadIsStable(supported, first, later);
  }
}
