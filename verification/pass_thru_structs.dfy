/**
 The managed PassThru structures: the message record with its text
 renderings, and the SConfig / SConfigList / SByteArray records with their
 constructors.
 */
module PassThruStructs {
  import opened Base
  import opened Text

  /** The sentinel both text renderings use for an empty or all-zero payload. */
  const NoDataSentinel: string := "No Data!"

  /**
   A PassThru message. ProtocolId, RxStatus and TxFlags are the numeric values
   of the corresponding enumerations; DataSize is a field of its own and is not
   tied to the length of Data.
   */
  datatype PassThruMsg = PassThruMsg(
    protocolId: uint32,
    rxStatus: uint32,
    txFlags: uint32,
    timestamp: uint32,
    dataSize: uint32,
    extraDataIndex: uint32,
    data: seq<byte>)

  /** LINQ `All(b => b == 0x00)`, which holds of the empty payload too. */
  predicate AllZero(data: seq<byte>) {
    forall i :: 0 <= i < |data| ==> data[i] == 0
  }

  /** `new PassThruMsg(ByteCount)`: every scalar zero and a zero-filled payload of ByteCount bytes. */
  function NewPassThruMsg(byteCount: uint32): (m: PassThruMsg)
    ensures |m.data| == byteCount && AllZero(m.data)
    ensures m.protocolId == 0 && m.rxStatus == 0 && m.txFlags == 0
    ensures m.timestamp == 0 && m.dataSize == 0 && m.extraDataIndex == 0
  {
    PassThruMsg(0, 0, 0, 0, 0, 0, seq(byteCount, _ => 0))
  }

  /**
   `DataToAsciiString`: the sentinel for an all-zero payload, otherwise the
   payload decoded by the platform's default text encoding, which is a
   parameter here.
   */
  function DataToAsciiString(data: seq<byte>, decode: seq<byte> -> string): (r: string)
    ensures AllZero(data) ==> r == NoDataSentinel
    ensures !AllZero(data) ==> r == decode(data)
  {
    if AllZero(data) then NoDataSentinel else decode(data)
  }

  /** One byte as `DataToHexString` writes it: two upper-case hex digits, optionally after "0x". */
  function HexToken(b: byte, use0x: bool): string {
    if use0x then "0x" + HexPair(b) else HexPair(b)
  }

  function HexTokens(data: seq<byte>, use0x: bool): (tokens: seq<string>)
    ensures |tokens| == |data|
  {
    seq(|data|, i requires 0 <= i < |data| => HexToken(data[i], use0x))
  }

  lemma HexTokenShape(b: byte, use0x: bool)
    ensures |HexToken(b, use0x)| == (if use0x then 4 else 2)
    ensures ' ' !in HexToken(b, use0x)
    ensures HexToken(b, use0x)[0] != 'N'
  {
  }

  /**
   `DataToHexString(Use0x)`: the sentinel exactly when every byte is zero
   (the empty payload included); otherwise one token per byte, joined by
   single spaces.
   */
  function DataToHexString(data: seq<byte>, use0x: bool): (r: string)
    ensures r == NoDataSentinel <==> AllZero(data)
    ensures !AllZero(data) ==> |r| == (if use0x then 5 else 3) * |data| - 1
    ensures !AllZero(data) ==> |Split(r, ' ')| == |data|
    ensures !AllZero(data) ==> forall i :: 0 <= i < |data| ==> Split(r, ' ')[i] == HexToken(data[i], use0x)
  {
    if AllZero(data) then NoDataSentinel
    else
      var tokens := HexTokens(data, use0x);
      var r := Join(tokens, ' ');
      forall i | 0 <= i < |tokens|
        ensures |tokens[i]| == (if use0x then 4 else 2) && ' ' !in tokens[i]
      {
        HexTokenShape(data[i], use0x);
      }
      JoinLength(tokens, ' ', if use0x then 4 else 2);
      SplitJoin(tokens, ' ');
      HexTokenShape(data[0], use0x);
      JoinHead(tokens, ' ');
      assert r[0] != NoDataSentinel[0];
      r
  }

  /** Both renderings agree on when a payload is shown as the sentinel. */
  lemma SentinelsAgree(data: seq<byte>, use0x: bool, decode: seq<byte> -> string)
    ensures DataToHexString(data, use0x) == NoDataSentinel ==> DataToAsciiString(data, decode) == NoDataSentinel
  {
  }

  /** A freshly constructed message of any size renders as the sentinel. */
  lemma NewMessageHasNoData(byteCount: uint32, use0x: bool)
    ensures DataToHexString(NewPassThruMsg(byteCount).data, use0x) == NoDataSentinel
  {
  }

  // ---------------------------------------------------------------------------
  // SConfig, SConfigList, SByteArray

  /** One configuration parameter: its id and a value. */
  datatype SConfig = SConfig(sConfigValue: uint32, sConfigParamId: uint32)

  /** A list of configuration parameters and the declared parameter count. */
  datatype SConfigList = SConfigList(numberOfParams: uint32, configList: seq<SConfig>)

  /** A byte buffer and its declared length. */
  datatype SByteArray = SByteArray(numberOfBytes: uint32, data: seq<byte>)

  /** `new SConfig(ConfigParam)`: the value starts out as the numeric value of the parameter id. */
  function NewSConfig(configParam: uint32): (c: SConfig)
    ensures c.sConfigParamId == configParam && c.sConfigValue == configParam
  {
    SConfig(configParam, configParam)
  }

  /** `new SConfigList(ParamCount)`: an empty list that nevertheless declares ParamCount parameters. */
  function NewSConfigList(paramCount: uint32): (l: SConfigList)
    ensures l.numberOfParams == paramCount && |l.configList| == 0
  {
    SConfigList(paramCount, [])
  }

  /** `new SByteArray(ByteCount)`: a zero-filled buffer whose declared length is its real length. */
  function NewSByteArray(byteCount: uint32): (a: SByteArray)
    ensures a.numberOfBytes == byteCount == |a.data|
    ensures AllZero(a.data)
  {
    SByteArray(byteCount, seq(byteCount, _ => 0))
  }
}
