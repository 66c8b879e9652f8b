/**
 The JSON converter for PassThru messages, reduced to its per-property text
 encodings. A JSON object is a map from property name to token; the JSON
 text itself and the reflection-based enumeration names are not modelled:
 the enumeration names are supplied by an `EnumCodec` per enumeration.
 */
module PtMsgConverter {
  import opened Base
  import opened Text
  import opened PassThruStructs

  /** The two token kinds the reader distinguishes. */
  datatype JToken = JString(text: string) | JInteger(number: int)

  type JObject = map<string, JToken>

  /** `Enum.ToString()` and `Enum.Parse` for one enumeration type. */
  datatype EnumCodec = EnumCodec(render: uint32 -> string, parse: string -> Option<uint32>)

  /** Parsing a rendered name gives back the value (true of .NET enumerations, flag sets included). */
  ghost predicate Faithful(codec: EnumCodec) {
    forall v: uint32 :: codec.parse(codec.render(v)) == Some(v)
  }

  datatype EnumCodecs = EnumCodecs(protocolId: EnumCodec, rxStatus: EnumCodec, txFlags: EnumCodec)

  ghost predicate AllFaithful(enums: EnumCodecs) {
    Faithful(enums.protocolId) && Faithful(enums.rxStatus) && Faithful(enums.txFlags)
  }

  const PropertyNames: set<string> :=
    {"Timestamp", "ProtocolId", "TxFlags", "RxStatus", "DataSize", "ExtraDataIndex", "Data"}

  // ---------------------------------------------------------------------------
  // Writing

  /** Timestamp property text: the decimal value followed by "ms". */
  function TimestampString(timestamp: uint32): string {
    Decimal(timestamp) + "ms"
  }

  /** DataSize property text: "1 Byte" for one, "<n> Bytes" for every other count. */
  function DataSizeString(dataSize: uint32): string {
    Decimal(dataSize) + (if dataSize == 1 then " Byte" else " Bytes")
  }

  /** The Timestamp text is a run of digits denoting the timestamp, then "ms". */
  lemma TimestampStringShape(timestamp: uint32)
    ensures var r := TimestampString(timestamp);
            && |r| > 2 && r[|r| - 2..] == "ms"
            && AllDigits(r[..|r| - 2]) && DigitsValue(r[..|r| - 2]) == timestamp
  {
    var r := TimestampString(timestamp);
    assert r[..|r| - 2] == Decimal(timestamp);
  }

  /** The DataSize text is a run of digits denoting the size, a space, and the unit, singular only for one. */
  lemma DataSizeStringShape(dataSize: uint32) returns (k: nat)
    ensures var r := DataSizeString(dataSize);
            && 0 < k < |r| && r[k] == ' '
            && AllDigits(r[..k]) && DigitsValue(r[..k]) == dataSize
            && r[k + 1..] == (if dataSize == 1 then "Byte" else "Bytes")
  {
    var digits := Decimal(dataSize);
    var r := DataSizeString(dataSize);
    k := |digits|;
    assert r[..k] == digits && r[k] == ' ';
    assert r[k + 1..] == (if dataSize == 1 then "Byte" else "Bytes");
  }

  /**
   `WriteJson`: nothing is written for a null value; otherwise an object with
   the seven string properties, the payload in "0x"-prefixed hex.
   */
  function WriteJson(value: Option<PassThruMsg>, enums: EnumCodecs): (r: Option<JObject>)
    ensures r.None? <==> value.None?
    ensures r.Some? ==> r.value.Keys == PropertyNames
    ensures r.Some? ==> forall name :: name in r.value ==> r.value[name].JString?
    ensures r.Some? ==> r.value["Timestamp"].text == TimestampString(value.value.timestamp)
    ensures r.Some? ==> r.value["DataSize"].text == DataSizeString(value.value.dataSize)
    ensures r.Some? ==> r.value["ExtraDataIndex"].text == Decimal(value.value.extraDataIndex)
    ensures r.Some? ==> r.value["Data"].text == DataToHexString(value.value.data, true)
    ensures r.Some? ==> r.value["ProtocolId"].text == enums.protocolId.render(value.value.protocolId)
    ensures r.Some? ==> r.value["RxStatus"].text == enums.rxStatus.render(value.value.rxStatus)
    ensures r.Some? ==> r.value["TxFlags"].text == enums.txFlags.render(value.value.txFlags)
  {
    match value
    case None => None
    case Some(m) =>
      Some(map[
        "Timestamp" := JString(TimestampString(m.timestamp)),
        "ProtocolId" := JString(enums.protocolId.render(m.protocolId)),
        "TxFlags" := JString(enums.txFlags.render(m.txFlags)),
        "RxStatus" := JString(enums.rxStatus.render(m.rxStatus)),
        "DataSize" := JString(DataSizeString(m.dataSize)),
        "ExtraDataIndex" := JString(Decimal(m.extraDataIndex)),
        "Data" := JString(DataToHexString(m.data, true))
      ])
  }

  // ---------------------------------------------------------------------------
  // Reading

  datatype ReadError =
    | MissingProperty(name: string)              // the indexer yields null and the access throws
    | UnknownEnumName(name: string)              // Enum.Parse rejects the text
    | BadNumber(name: string, cause: ParseError) // uint.Parse or the integer conversion throws
    | BadDataByte(token: string, cause: ParseError) // Convert.ToByte(token, 16) throws

  function Property(obj: JObject, name: string): (r: Result<JToken, ReadError>)
    ensures r.Success? <==> name in obj
  {
    if name in obj then Success(obj[name]) else Failure(MissingProperty(name))
  }

  /** `Value<string>()`: a string token's text, or an integer token in decimal. */
  function TokenText(token: JToken): string {
    match token
    case JString(text) => text
    case JInteger(number) => if number < 0 then "-" + Decimal(-number) else Decimal(number)
  }

  /** An enumeration property: an integer token is cast, a string token goes through Enum.Parse. */
  function ReadEnum(obj: JObject, name: string, codec: EnumCodec): (r: Result<uint32, ReadError>)
    ensures r.Success? ==> name in obj
    ensures name in obj && obj[name].JString? ==> (r.Success? <==> codec.parse(obj[name].text).Some?)
    ensures r.Success? && obj[name].JString? ==> codec.parse(obj[name].text) == Some(r.value)
    ensures name in obj && obj[name].JInteger? ==> (r.Success? <==> 0 <= obj[name].number <= UINT32_MAX)
    ensures r.Success? && obj[name].JInteger? ==> r.value == obj[name].number
  {
    var token :- Property(obj, name);
    match token
    case JInteger(number) =>
      if 0 <= number <= UINT32_MAX then Success(number) else Failure(BadNumber(name, OverflowError))
    case JString(text) =>
      match codec.parse(text)
      case Some(v) => Success(v)
      case None => Failure(UnknownEnumName(name))
  }

  /** A uint property: the property text is narrowed by `select`, then parsed with uint.Parse. */
  function ReadUInt(obj: JObject, name: string, select: string -> string): (r: Result<uint32, ReadError>)
    ensures r.Success? <==> name in obj && ParseUInt(select(TokenText(obj[name]))).Success?
    ensures r.Success? ==> ParseUInt(select(TokenText(obj[name]))) == Success(r.value)
  {
    var token :- Property(obj, name);
    match ParseUInt(select(TokenText(token)))
    case Success(v) => Success(v)
    case Failure(e) => Failure(BadNumber(name, e))
  }

  /** Timestamp: the first run of digits. */
  function TimestampDigits(text: string): string {
    FirstDigitRun(text)
  }

  /** DataSize: the text before the first space. */
  function DataSizeDigits(text: string): string {
    Split(text, ' ')[0]
  }

  /** ExtraDataIndex: the whole text. */
  function WholeText(text: string): string {
    text
  }

  /** One Data token: every "0x" removed, then read as a hex byte. */
  function TokenByte(token: string): Result<byte, ParseError> {
    ParseHexByte(RemoveAll(token, "0x"))
  }

  /** A token with at most one leading "0x", and none elsewhere, reads as the hex text after it. */
  lemma TokenBytePrefix(token: string)
    ensures !Contains(token, "0x") ==> TokenByte(token) == ParseHexByte(token)
    ensures StartsWith(token, "0x") && !Contains(token[2..], "0x") ==> TokenByte(token) == ParseHexByte(token[2..])
  {
  }

  /** Each space-separated token is read as one byte; the first that does not parse escapes. */
  function ParseHexTokens(tokens: seq<string>): (r: Result<seq<byte>, ReadError>)
    ensures r.Success? <==> forall i :: 0 <= i < |tokens| ==> TokenByte(tokens[i]).Success?
    ensures r.Success? ==> |r.value| == |tokens|
    ensures r.Success? ==> forall i :: 0 <= i < |tokens| ==> TokenByte(tokens[i]) == Success(r.value[i])
  {
    if |tokens| == 0 then Success([])
    else
      match TokenByte(tokens[0])
      case Failure(e) => Failure(BadDataByte(tokens[0], e))
      case Success(b) =>
        assert forall i :: 1 <= i < |tokens| ==> tokens[i] == tokens[1..][i - 1];
        var rest :- ParseHexTokens(tokens[1..]);
        Success([b] + rest)
  }

  /** Data property text: the sentinel reads as an empty payload, anything else as hex tokens. */
  function ReadData(text: string): (r: Result<seq<byte>, ReadError>)
    ensures text == NoDataSentinel ==> r == Success([])
    ensures text != NoDataSentinel ==>
              (r.Success? <==> forall i :: 0 <= i < |Split(text, ' ')| ==> TokenByte(Split(text, ' ')[i]).Success?)
    ensures text != NoDataSentinel && r.Success? ==> |r.value| == |Split(text, ' ')|
    ensures text != NoDataSentinel && r.Success? ==>
              forall i :: 0 <= i < |r.value| ==> TokenByte(Split(text, ' ')[i]) == Success(r.value[i])
  {
    if text == NoDataSentinel then Success([])
    else
      var tokens := Split(text, ' ');
      assert tokens == Split(text, ' ');
      var r := ParseHexTokens(tokens);
      assert r.Success? <==> forall i :: 0 <= i < |tokens| ==> TokenByte(tokens[i]).Success?;
      assert r.Success? ==> |r.value| == |tokens|;
      r
  }

  /** The seven properties, read in the source's order; the first failure escapes. */
  function ReadMessage(obj: JObject, enums: EnumCodecs): (r: Result<PassThruMsg, ReadError>)
    ensures r.Success? ==> "ProtocolId" in obj && "RxStatus" in obj && "TxFlags" in obj
    ensures r.Success? ==> "Timestamp" in obj && "DataSize" in obj && "ExtraDataIndex" in obj && "Data" in obj
    ensures r.Success? && TokenText(obj["Data"]) == NoDataSentinel ==> r.value.data == []
    ensures r.Success? <==>
              && ReadEnum(obj, "ProtocolId", enums.protocolId).Success?
              && ReadEnum(obj, "RxStatus", enums.rxStatus).Success?
              && ReadEnum(obj, "TxFlags", enums.txFlags).Success?
              && ReadUInt(obj, "Timestamp", TimestampDigits).Success?
              && ReadUInt(obj, "DataSize", DataSizeDigits).Success?
              && ReadUInt(obj, "ExtraDataIndex", WholeText).Success?
              && "Data" in obj && ReadData(TokenText(obj["Data"])).Success?
    ensures r.Success? ==> Success(r.value.protocolId) == ReadEnum(obj, "ProtocolId", enums.protocolId)
    ensures r.Success? ==> Success(r.value.rxStatus) == ReadEnum(obj, "RxStatus", enums.rxStatus)
    ensures r.Success? ==> Success(r.value.txFlags) == ReadEnum(obj, "TxFlags", enums.txFlags)
    ensures r.Success? ==> Success(r.value.timestamp) == ParseUInt(FirstDigitRun(TokenText(obj["Timestamp"])))
    ensures r.Success? ==> Success(r.value.dataSize) == ParseUInt(Split(TokenText(obj["DataSize"]), ' ')[0])
    ensures r.Success? ==> Success(r.value.extraDataIndex) == ParseUInt(TokenText(obj["ExtraDataIndex"]))
    ensures r.Success? ==> Success(r.value.data) == ReadData(TokenText(obj["Data"]))
  {
    var protocolId :- ReadEnum(obj, "ProtocolId", enums.protocolId);
    var rxStatus :- ReadEnum(obj, "RxStatus", enums.rxStatus);
    var txFlags :- ReadEnum(obj, "TxFlags", enums.txFlags);
    var timestamp :- ReadUInt(obj, "Timestamp", TimestampDigits);
    var dataSize :- ReadUInt(obj, "DataSize", DataSizeDigits);
    var extraDataIndex :- ReadUInt(obj, "ExtraDataIndex", WholeText);
    var dataToken :- Property(obj, "Data");
    var data :- ReadData(TokenText(dataToken));
    Success(PassThruMsg(protocolId, rxStatus, txFlags, timestamp, dataSize, extraDataIndex, data))
  }

  /** `ReadJson`: an object without properties yields null (the `default` of `object?`). */
  function ReadJson(obj: JObject, enums: EnumCodecs): (r: Result<Option<PassThruMsg>, ReadError>)
    ensures |obj| == 0 ==> r == Success(None)
    ensures |obj| > 0 && r.Success? ==> r.value.Some?
    ensures |obj| > 0 ==> (r.Success? <==> ReadMessage(obj, enums).Success?)
    ensures |obj| > 0 && r.Success? ==> r.value == Some(ReadMessage(obj, enums).value)
    ensures |obj| > 0 && r.Failure? ==> r.error == ReadMessage(obj, enums).error
  {
    if |obj| == 0 then Success(None)
    else
      var m :- ReadMessage(obj, enums);
      Success(Some(m))
  }

  // ---------------------------------------------------------------------------
  // Round trips, property by property

  lemma TimestampRoundTrip(timestamp: uint32)
    ensures ParseUInt(TimestampDigits(TimestampString(timestamp))) == Success(timestamp)
  {
    FirstDigitRunOfPrefix(Decimal(timestamp), "ms");
    ParseDecimal(timestamp);
  }

  lemma DataSizeRoundTrip(dataSize: uint32)
    ensures ParseUInt(DataSizeDigits(DataSizeString(dataSize))) == Success(dataSize)
  {
    var digits := Decimal(dataSize);
    var unit := if dataSize == 1 then "Byte" else "Bytes";
    assert DataSizeString(dataSize) == digits + [' '] + unit;
    assert ' ' !in digits;
    SplitHead(digits, ' ', unit);
    ParseDecimal(dataSize);
  }

  lemma ExtraDataIndexRoundTrip(extraDataIndex: uint32)
    ensures ParseUInt(WholeText(Decimal(extraDataIndex))) == Success(extraDataIndex)
  {
    ParseDecimal(extraDataIndex);
  }

  lemma HexTokenRoundTrip(b: byte, use0x: bool)
    ensures TokenByte(HexToken(b, use0x)) == Success(b)
  {
    var pair := HexPair(b);
    assert 'x' !in pair;
    RemoveAllAbsent(pair, "0x");
    if use0x {
      var token := "0x" + pair;
      assert StartsWith(token, "0x");
      assert token[|"0x"|..] == pair;
    }
    ParseHexPair(b);
  }

  lemma HexTokensRoundTrip(tokens: seq<string>, data: seq<byte>, use0x: bool)
    requires |tokens| == |data|
    requires forall i :: 0 <= i < |data| ==> tokens[i] == HexToken(data[i], use0x)
    ensures ParseHexTokens(tokens) == Success(data)
  {
    forall i | 0 <= i < |data|
      ensures TokenByte(tokens[i]) == Success(data[i])
    {
      HexTokenRoundTrip(data[i], use0x);
    }
    var r := ParseHexTokens(tokens);
    assert r.Success?;
    assert r.value == data;
  }

  /** A payload with a nonzero byte survives rendering and reading, with or without "0x". */
  lemma DataRoundTrip(data: seq<byte>, use0x: bool)
    requires !AllZero(data)
    ensures ReadData(DataToHexString(data, use0x)) == Success(data)
  {
    var text := DataToHexString(data, use0x);
    var tokens := Split(text, ' ');
    HexTokensRoundTrip(tokens, data, use0x);
  }

  /**
   Writing a message and reading the object back reproduces it, except that an
   all-zero payload (rendered as the sentinel) comes back empty while DataSize
   is kept as written.
   */
  lemma {:induction false} ReadWriteRoundTrip(m: PassThruMsg, enums: EnumCodecs)
    requires AllFaithful(enums)
    ensures WriteJson(Some(m), enums).Some?
    ensures !AllZero(m.data) ==> ReadJson(WriteJson(Some(m), enums).value, enums) == Success(Some(m))
    ensures AllZero(m.data) ==> ReadJson(WriteJson(Some(m), enums).value, enums) == Success(Some(m.(data := [])))
  {
    var obj := WriteJson(Some(m), enums).value;
    assert "Timestamp" in obj;
    assert |obj| > 0;
    assert obj["ProtocolId"] == JString(enums.protocolId.render(m.protocolId));
    assert obj["RxStatus"] == JString(enums.rxStatus.render(m.rxStatus));
    assert obj["TxFlags"] == JString(enums.txFlags.render(m.txFlags));
    assert obj["Timestamp"] == JString(TimestampString(m.timestamp));
    assert obj["DataSize"] == JString(DataSizeString(m.dataSize));
    assert obj["ExtraDataIndex"] == JString(Decimal(m.extraDataIndex));
    assert obj["Data"] == JString(DataToHexString(m.data, true));
    assert ReadEnum(obj, "ProtocolId", enums.protocolId) == Success(m.protocolId);
    assert ReadEnum(obj, "RxStatus", enums.rxStatus) == Success(m.rxStatus);
    assert ReadEnum(obj, "TxFlags", enums.txFlags) == Success(m.txFlags);
    TimestampRoundTrip(m.timestamp);
    DataSizeRoundTrip(m.dataSize);
    ExtraDataIndexRoundTrip(m.extraDataIndex);
    if !AllZero(m.data) {
      DataRoundTrip(m.data, true);
    }
  }

  /** A non-empty all-zero payload does not survive: it is read back empty, with a stale DataSize. */
  lemma ZeroPayloadCollapses(m: PassThruMsg, enums: EnumCodecs)
    requires AllFaithful(enums)
    requires |m.data| > 0 && AllZero(m.data)
    ensures ReadJson(WriteJson(Some(m), enums).value, enums) != Success(Some(m))
    ensures ReadJson(WriteJson(Some(m), enums).value, enums) == Success(Some(m.(data := [])))
  {
    ReadWriteRoundTrip(m, enums);
    assert m.(data := []) != m;
  }
}
