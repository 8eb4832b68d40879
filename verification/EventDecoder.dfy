/**
 The decoder of indexed rescue events: topics and ABI-encoded data in, a row for rescue_events out. Text
 decoded from string arguments stays a sequence of bytes; numbers stay numbers.
 */
module EventDecoder {
  import opened Common
  import opened AbiWords

  type Byte = b: nat | b < 256

  /** A log as the RPC returns it; block number and log index are read already. */
  datatype RawLog = RawLog(address: string, blockNumber: nat, transactionHash: string, logIndex: nat,
                           data: string, topics: seq<string>)

  datatype EventName =
    | PositionUpdated | RescueInitiated | RescueStepCompleted | RescueCompleted | RescueFailed
    | CrossChainInitiated | CrossChainCompleted | CrossChainDestinationFailed
    | EscrowCreated | LogEntryAdded | MessageFailed

  datatype Payload =
    | Position(collateral: nat, debt: nat, hfWad: nat)
    | Initiated(steps: nat, deadline: nat)
    | StepCompleted(stepIndex: nat, sourceAdapter: string, targetAdapter: string,
                    collateralAmount: nat, debtAmount: nat)
    | Completed(status: nat, finalStepIndex: nat)
    | Failed(reason: seq<Byte>, failedStepIndex: nat)
    | CrossInitiated(targetChain: nat, feePaid: nat)
    | CrossCompleted(amountReceived: nat)
    | CrossFailed(reason: seq<Byte>)
    | Escrow(escrowId: Option<string>, owner: Option<string>, asset: string, amount: nat, relatedExecId: string)
    | LogEntry(stepIndex: nat, status: nat, details: seq<Byte>)
    | Undelivered(sourceChainSelector: nat, reason: seq<Byte>)

  datatype DecodedEvent = DecodedEvent(eventName: EventName, execId: Option<string>, userAddress: Option<string>,
                                       messageId: Option<string>, payload: Payload)

  // ---- event topics ----

  function TopicHash(name: EventName): nat {
    match name
    case PositionUpdated => 0x9208581a0e171145ce93f9f72ef656f294f2c169925e140f0f20406aba1a04ae
    case RescueInitiated => 0xd4128db1fda076924846d094ad59a41b49f7a4549d7458efe4cc4b646e71ff8f
    case RescueStepCompleted => 0x514662d55cd5547edcd009c6570869f270902339ffb7985ede2ffff582902e62
    case RescueCompleted => 0x33b6af444fe9519ea73c16ffe62acbdc79315a8279b135dea1c39fbf71e57600
    case RescueFailed => 0xa2009c4dd61cbd90c9ae3bd19525a33ddbc46f3dc6973936180c9f1f091b6dbe
    case CrossChainInitiated => 0x4cdde96a772bd91aba8e6b851177e3723470d4e954a493eb5d018aa56320c30c
    case CrossChainCompleted => 0x9a38f04f175068f7831600f534c9e0a415195bdd7ed9af8a9db2618ee37ee11d
    case CrossChainDestinationFailed => 0xa1a9797d1cf848fa8a8558bc9e2d8cefadf44a7c0155cc17c5aa72b965d58a30
    case EscrowCreated => 0x50695c66e89a8e569a3b023ade1c3eb8931859c633360562f1233b9b543894f7
    case LogEntryAdded => 0x9da6638612079a2a3ab8cb4a63cb496a07b5140f812f0870dfc6a4f2bab6394e
    case MessageFailed => 0xe8f12c23b5fd4f02be2f5efb64d44b3403acc8907eac3d41c338ff5ad3d19016
  }

  function EventTopic(name: EventName): (t: string)
    ensures Lower(t) == t
  {
    var digits := ToHex(TopicHash(name), WORD);
    LowerPrefixed(digits);
    "0x" + digits
  }

  /** The event a topic announces. */
  function EventOf(topic0: string): Option<EventName> {
    if topic0 == EventTopic(PositionUpdated) then Some(PositionUpdated)
    else if topic0 == EventTopic(RescueInitiated) then Some(RescueInitiated)
    else if topic0 == EventTopic(RescueStepCompleted) then Some(RescueStepCompleted)
    else if topic0 == EventTopic(RescueCompleted) then Some(RescueCompleted)
    else if topic0 == EventTopic(RescueFailed) then Some(RescueFailed)
    else if topic0 == EventTopic(CrossChainInitiated) then Some(CrossChainInitiated)
    else if topic0 == EventTopic(CrossChainCompleted) then Some(CrossChainCompleted)
    else if topic0 == EventTopic(CrossChainDestinationFailed) then Some(CrossChainDestinationFailed)
    else if topic0 == EventTopic(EscrowCreated) then Some(EscrowCreated)
    else if topic0 == EventTopic(LogEntryAdded) then Some(LogEntryAdded)
    else if topic0 == EventTopic(MessageFailed) then Some(MessageFailed)
    else None
  }

  // ---- reading topics ----

  function TopicText(log: RawLog, i: nat): Option<string> {
    if i < |log.topics| then Some(Lower(log.topics[i])) else None
  }

  function TopicToAddress(topic: string): string {
    Lower("0x" + Slice(Strip0x(topic), 24, |topic|))
  }

  function TopicAddress(log: RawLog, i: nat): Option<string> {
    if i < |log.topics| && log.topics[i] != "" then Some(TopicToAddress(log.topics[i])) else None
  }

  /** A missing topic counts as zero; a topic is hex text behind 0x. */
  function TopicNumber(log: RawLog, i: nat): Result<nat, AbiError> {
    if i >= |log.topics| || log.topics[i] == "" then Ok(0)
    else if Strip0x(log.topics[i]) == log.topics[i] then Err(NotANumber)
    else ParseHex(Strip0x(log.topics[i]))
  }

  // ---- reading data ----

  function ReadWord(data: string, index: nat): (r: Result<string, AbiError>)
    ensures r.Ok? ==> |r.value| == WORD
  {
    if index * WORD + WORD > |data| then Err(OutOfBounds) else Ok(data[index * WORD..index * WORD + WORD])
  }

  function ReadUintWord(data: string, index: nat): Result<nat, AbiError> {
    var word :- ReadWord(data, index);
    ParseHex(word)
  }

  function ReadAddressWord(data: string, index: nat): Result<string, AbiError> {
    var word :- ReadWord(data, index);
    Ok(Lower("0x" + word[24..]))
  }

  function ReadBytes32Word(data: string, index: nat): Result<string, AbiError> {
    var word :- ReadWord(data, index);
    Ok(Lower("0x" + word))
  }

  /** Bytes from pairs of hex digits, up to the first pair that is not. */
  function HexBytes(s: string): seq<Byte> {
    if |s| < 2 || !IsHexDigit(s[0]) || !IsHexDigit(s[1]) then []
    else [16 * HexValue(s[0]) + HexValue(s[1])] + HexBytes(s[2..])
  }

  /** The bytes of the string whose length word lies at an offset; slices keep within the data. */
  function DecodeStringAtOffset(data: string, offset: nat): Result<seq<Byte>, AbiError> {
    var at := 2 * offset;
    var length :- ParseHex(Slice(data, at, at + WORD));
    Ok(HexBytes(Slice(data, at + WORD, at + WORD + 2 * length)))
  }

  // ---- events ----

  function DecodePayload(name: EventName, log: RawLog, data: string): Result<Payload, AbiError> {
    match name
    case PositionUpdated =>
      var collateral :- ReadUintWord(data, 0);
      var debt :- ReadUintWord(data, 1);
      var hfWad :- ReadUintWord(data, 2);
      Ok(Position(collateral, debt, hfWad))
    case RescueInitiated =>
      var steps :- ReadUintWord(data, 0);
      var deadline :- ReadUintWord(data, 1);
      Ok(Initiated(steps, deadline))
    case RescueStepCompleted =>
      var stepIndex :- TopicNumber(log, 2);
      var sourceAdapter :- ReadAddressWord(data, 0);
      var targetAdapter :- ReadAddressWord(data, 1);
      var collateralAmount :- ReadUintWord(data, 2);
      var debtAmount :- ReadUintWord(data, 3);
      Ok(StepCompleted(stepIndex, sourceAdapter, targetAdapter, collateralAmount, debtAmount))
    case RescueCompleted =>
      var status :- ReadUintWord(data, 0);
      var finalStepIndex :- ReadUintWord(data, 1);
      Ok(Completed(status, finalStepIndex))
    case RescueFailed =>
      var reasonOffset :- ReadUintWord(data, 0);
      var reason :- DecodeStringAtOffset(data, reasonOffset);
      var failedStepIndex :- ReadUintWord(data, 1);
      Ok(Failed(reason, failedStepIndex))
    case CrossChainInitiated =>
      var targetChain :- TopicNumber(log, 2);
      var feePaid :- ReadUintWord(data, 0);
      Ok(CrossInitiated(targetChain, feePaid))
    case CrossChainCompleted =>
      var amountReceived :- ReadUintWord(data, 0);
      Ok(CrossCompleted(amountReceived))
    case CrossChainDestinationFailed =>
      var reasonOffset :- ReadUintWord(data, 0);
      var reason :- DecodeStringAtOffset(data, reasonOffset);
      Ok(CrossFailed(reason))
    case EscrowCreated =>
      var relatedExecId :- ReadBytes32Word(data, 2);
      var asset :- ReadAddressWord(data, 0);
      var amount :- ReadUintWord(data, 1);
      Ok(Escrow(TopicText(log, 1), TopicAddress(log, 2), asset, amount, relatedExecId))
    case LogEntryAdded =>
      var detailsOffset :- ReadUintWord(data, 1);
      var stepIndex :- TopicNumber(log, 2);
      var status :- ReadUintWord(data, 0);
      var details :- DecodeStringAtOffset(data, detailsOffset);
      Ok(LogEntry(stepIndex, status, details))
    case MessageFailed =>
      var reasonOffset :- ReadUintWord(data, 0);
      var sourceChainSelector :- TopicNumber(log, 2);
      var reason :- DecodeStringAtOffset(data, reasonOffset);
      Ok(Undelivered(sourceChainSelector, reason))
  }

  function ExecIdOf(name: EventName, log: RawLog, payload: Payload): Option<string> {
    match name
    case PositionUpdated => None
    case EscrowCreated => if payload.Escrow? then Some(payload.relatedExecId) else None
    case MessageFailed => TopicText(log, 3)
    case _ => TopicText(log, 1)
  }

  function UserOf(name: EventName, log: RawLog): Option<string> {
    match name
    case PositionUpdated => TopicAddress(log, 1)
    case RescueInitiated | RescueCompleted | RescueFailed | EscrowCreated => TopicAddress(log, 2)
    case LogEntryAdded => TopicAddress(log, 3)
    case _ => None
  }

  function MessageIdOf(name: EventName, log: RawLog): Option<string> {
    match name
    case CrossChainInitiated => TopicText(log, 3)
    case CrossChainCompleted | CrossChainDestinationFailed => TopicText(log, 2)
    case MessageFailed => TopicText(log, 1)
    case _ => None
  }

  /** None skips a log that announces no indexed event; an error is a throw out of the indexing run. */
  function DecodeIndexedEvent(log: RawLog): Result<Option<DecodedEvent>, AbiError> {
    if log.topics == [] then Ok(None)
    else
      match EventOf(Lower(log.topics[0]))
      case None => Ok(None)
      case Some(name) =>
        var payload :- DecodePayload(name, log, Strip0x(log.data));
        Ok(Some(DecodedEvent(name, ExecIdOf(name, log, payload), UserOf(name, log), MessageIdOf(name, log), payload)))
  }

  // ---- encoding ----

  function BytesHex(bytes: seq<Byte>): string {
    if bytes == [] then "" else ToHex(bytes[0], 2) + BytesHex(bytes[1..])
  }

  /** The tail of a string argument: its length, its bytes, and zeros up to a whole word. */
  function StringTail(bytes: seq<Byte>): string {
    UintWord(|bytes|) + BytesHex(bytes) + Zeros((32 - |bytes| % 32) % 32 * 2)
  }

  predicate IsHash(t: string) {
    |t| == 66 && t[..2] == "0x" && Lower(t) == t
  }

  predicate IsLowerAddress(a: string) {
    IsAddress(a) && Lower(a) == a
  }

  predicate Some32(t: Option<string>) {
    t.Some? && IsHash(t.value)
  }

  predicate SomeUser(a: Option<string>) {
    a.Some? && IsLowerAddress(a.value)
  }

  function HashWord(t: string): (w: string)
    requires IsHash(t)
    ensures |w| == WORD
  {
    t[2..]
  }

  function UintTopic(v: nat): string {
    "0x" + UintWord(v)
  }

  function AddressTopic(a: string): string
    requires IsAddress(a)
  {
    "0x" + AddressWord(a)
  }

  /** Events as the contracts emit them: ids of 32 bytes, addresses of 20, numbers of 256 bits. */
  predicate WellFormed(e: DecodedEvent) {
    match e.payload
    case Position(a, b, c) =>
      e.eventName == PositionUpdated && e.execId == None && SomeUser(e.userAddress) && e.messageId == None
      && IsUint(a) && IsUint(b) && IsUint(c)
    case Initiated(a, b) =>
      e.eventName == RescueInitiated && Some32(e.execId) && SomeUser(e.userAddress) && e.messageId == None
      && IsUint(a) && IsUint(b)
    case StepCompleted(a, source, target, b, c) =>
      e.eventName == RescueStepCompleted && Some32(e.execId) && e.userAddress == None && e.messageId == None
      && IsUint(a) && IsLowerAddress(source) && IsLowerAddress(target) && IsUint(b) && IsUint(c)
    case Completed(a, b) =>
      e.eventName == RescueCompleted && Some32(e.execId) && SomeUser(e.userAddress) && e.messageId == None
      && IsUint(a) && IsUint(b)
    case Failed(reason, a) =>
      e.eventName == RescueFailed && Some32(e.execId) && SomeUser(e.userAddress) && e.messageId == None
      && IsUint(|reason|) && IsUint(a)
    case CrossInitiated(a, b) =>
      e.eventName == CrossChainInitiated && Some32(e.execId) && e.userAddress == None && Some32(e.messageId)
      && IsUint(a) && IsUint(b)
    case CrossCompleted(a) =>
      e.eventName == CrossChainCompleted && Some32(e.execId) && e.userAddress == None && Some32(e.messageId)
      && IsUint(a)
    case CrossFailed(reason) =>
      e.eventName == CrossChainDestinationFailed && Some32(e.execId) && e.userAddress == None
      && Some32(e.messageId) && IsUint(|reason|)
    case Escrow(id, owner, asset, a, exec) =>
      e.eventName == EscrowCreated && e.execId == Some(exec) && IsHash(exec) && e.userAddress == owner
      && SomeUser(owner) && Some32(id) && e.messageId == None && IsLowerAddress(asset) && IsUint(a)
    case LogEntry(a, b, details) =>
      e.eventName == LogEntryAdded && Some32(e.execId) && SomeUser(e.userAddress) && e.messageId == None
      && IsUint(a) && IsUint(b) && IsUint(|details|)
    case Undelivered(a, reason) =>
      e.eventName == MessageFailed && Some32(e.execId) && e.userAddress == None && Some32(e.messageId)
      && IsUint(a) && IsUint(|reason|)
  }

  /** The indexed arguments of an event. */
  function IndexedTopics(e: DecodedEvent): seq<string>
    requires WellFormed(e)
  {
    match e.payload
    case Position(_, _, _) => [AddressTopic(e.userAddress.value)]
    case Initiated(_, _) => [e.execId.value, AddressTopic(e.userAddress.value)]
    case StepCompleted(a, _, _, _, _) => [e.execId.value, UintTopic(a)]
    case Completed(_, _) => [e.execId.value, AddressTopic(e.userAddress.value)]
    case Failed(_, _) => [e.execId.value, AddressTopic(e.userAddress.value)]
    case CrossInitiated(a, _) => [e.execId.value, UintTopic(a), e.messageId.value]
    case CrossCompleted(_) => [e.execId.value, e.messageId.value]
    case CrossFailed(_) => [e.execId.value, e.messageId.value]
    case Escrow(id, owner, _, _, _) => [id.value, AddressTopic(owner.value)]
    case LogEntry(a, _, _) => [e.execId.value, UintTopic(a), AddressTopic(e.userAddress.value)]
    case Undelivered(a, _) => [e.messageId.value, UintTopic(a), e.execId.value]
  }

  /** The head of the other arguments: values, and offsets of strings. */
  function HeadWords(e: DecodedEvent): seq<string>
    requires WellFormed(e)
  {
    match e.payload
    case Position(a, b, c) => [UintWord(a), UintWord(b), UintWord(c)]
    case Initiated(a, b) => [UintWord(a), UintWord(b)]
    case StepCompleted(_, source, target, a, b) => [AddressWord(source), AddressWord(target), UintWord(a), UintWord(b)]
    case Completed(a, b) => [UintWord(a), UintWord(b)]
    case Failed(_, a) => [UintWord(64), UintWord(a)]
    case CrossInitiated(_, a) => [UintWord(a)]
    case CrossCompleted(a) => [UintWord(a)]
    case CrossFailed(_) => [UintWord(32)]
    case Escrow(_, _, asset, a, exec) => [AddressWord(asset), UintWord(a), HashWord(exec)]
    case LogEntry(_, a, _) => [UintWord(a), UintWord(64)]
    case Undelivered(_, _) => [UintWord(32)]
  }

  /** The tail: the string argument of the events that have one. */
  function Tail(payload: Payload): string {
    match payload
    case Failed(reason, _) => StringTail(reason)
    case CrossFailed(reason) => StringTail(reason)
    case LogEntry(_, _, details) => StringTail(details)
    case Undelivered(_, reason) => StringTail(reason)
    case _ => ""
  }

  /** The log of an event, with any further topics and any further data behind. */
  function EncodeLog(e: DecodedEvent, log: RawLog, moreTopics: seq<string>, moreData: string): RawLog
    requires WellFormed(e)
  {
    log.(topics := [EventTopic(e.eventName)] + IndexedTopics(e) + moreTopics,
         data := "0x" + Join(HeadWords(e)) + Tail(e.payload) + moreData)
  }

  // ------------------------------------------------------------------ theorems

  // ---- topics ----

  lemma LowerPrefixed(s: string)
    requires Lower(s) == s
    ensures Lower("0x" + s) == "0x" + s
  {
    forall i | 0 <= i < |s| + 2
      ensures Lower("0x" + s)[i] == ("0x" + s)[i]
    {
      if i >= 2 {
        assert Lower(s)[i - 2] == s[i - 2];
      }
    }
  }

  lemma Pow16Of8()
    ensures Pow16(8) == 0x1_00000000
  {
  }

  lemma WordSpace()
    ensures Pow16(WORD) == 0x1_0000000000000000000000000000000000000000000000000000000000000000
  {
    hide Pow16;
    Pow16Of8();
    Pow16Sum(8, 8);
    Pow16Sum(16, 16);
    Pow16Sum(32, 32);
  }

  lemma {:induction false} Pow16Sum(a: nat, b: nat)
    ensures Pow16(a + b) == Pow16(a) * Pow16(b)
  {
    if b > 0 {
      Pow16Sum(a, b - 1);
    }
  }

  /** The eleven topics are different texts. */
  lemma TopicsDiffer(m: EventName, n: EventName)
    requires EventTopic(m) == EventTopic(n)
    ensures m == n
  {
    hide ToHex;
    WordSpace();
    HexRoundTrip(TopicHash(m), WORD);
    HexRoundTrip(TopicHash(n), WORD);
    assert EventTopic(m)[2..] == ToHex(TopicHash(m), WORD) && EventTopic(n)[2..] == ToHex(TopicHash(n), WORD);
  }

  /** A topic announces an event exactly when it is that event's topic. */
  lemma EventOfTopic(topic: string, name: EventName)
    ensures EventOf(topic) == Some(name) <==> topic == EventTopic(name)
  {
    hide EventTopic;
    var found := EventOf(topic);
    assert found.Some? ==> topic == EventTopic(found.value);
    if topic == EventTopic(name) {
      TopicsDiffer(found.value, name);
    }
  }

  /** A log is skipped exactly when its first topic is none of the eleven. */
  lemma SkippedIff(log: RawLog)
    ensures DecodeIndexedEvent(log) == Ok(None)
            <==> log.topics == [] || forall name :: Lower(log.topics[0]) != EventTopic(name)
  {
    hide EventTopic, EventOf, DecodePayload;
    if log.topics != [] {
      var topic := Lower(log.topics[0]);
      forall name
        ensures EventOf(topic) == Some(name) <==> topic == EventTopic(name)
      {
        EventOfTopic(topic, name);
      }
      assert EventOf(topic).Some? ==> topic == EventTopic(EventOf(topic).value);
    }
  }

  /** The ids of a decoded event are in lower case already, so lowering them again changes nothing. */
  lemma IdsAreLower(log: RawLog)
    ensures match DecodeIndexedEvent(log)
            case Ok(Some(e)) =>
              && (e.execId.Some? ==> Lower(e.execId.value) == e.execId.value)
              && (e.messageId.Some? ==> Lower(e.messageId.value) == e.messageId.value)
              && (e.userAddress.Some? ==> Lower(e.userAddress.value) == e.userAddress.value)
            case _ => true
  {
    hide EventOf, ReadUintWord, ReadAddressWord, TopicNumber, DecodeStringAtOffset;
    forall s: string
      ensures Lower(Lower(s)) == Lower(s)
    {
      LowerTwice(s);
    }
  }

  /** So are the addresses in its payload. */
  lemma AddressesAreLower(name: EventName, log: RawLog, data: string)
    ensures match DecodePayload(name, log, data)
            case Ok(StepCompleted(_, source, target, _, _)) => Lower(source) == source && Lower(target) == target
            case Ok(Escrow(_, owner, asset, _, _)) =>
              Lower(asset) == asset && (owner.Some? ==> Lower(owner.value) == owner.value)
            case _ => true
  {
    hide ReadUintWord, ReadWord, TopicNumber, DecodeStringAtOffset;
    forall s: string
      ensures Lower(Lower(s)) == Lower(s)
    {
      LowerTwice(s);
    }
  }

  /** How many words an event's data has before the bytes of any string. */
  function WordsBefore(name: EventName): nat {
    match name
    case CrossChainInitiated | CrossChainCompleted | CrossChainDestinationFailed | MessageFailed => 1
    case RescueInitiated | RescueCompleted | RescueFailed | LogEntryAdded => 2
    case PositionUpdated | EscrowCreated => 3
    case RescueStepCompleted => 4
  }

  /** Data that ends within those words makes the decoder throw, and with it the indexing run. */
  lemma ShortDataThrows(log: RawLog, name: EventName)
    requires log.topics != [] && EventOf(Lower(log.topics[0])) == Some(name)
    requires |Strip0x(log.data)| < WORD * WordsBefore(name)
    ensures DecodeIndexedEvent(log).Err?
  {
    hide EventOf, ParseHex, DecodeStringAtOffset, TopicNumber, Lower;
    var data := Strip0x(log.data);
    forall i: nat | i + 1 >= WordsBefore(name)
      ensures ReadWord(data, i).Err?
    {
    }
  }

  /** A log with its first topic alone names no user and no message, no execution unless its data does, and the
      numbers its other topics would give are 0. */
  lemma LoneTopic(log: RawLog)
    requires |log.topics| == 1
    ensures match DecodeIndexedEvent(log)
            case Ok(Some(e)) =>
              && e.userAddress == None && e.messageId == None && (e.execId.Some? ==> e.payload.Escrow?)
              && (match e.payload
                  case StepCompleted(stepIndex, _, _, _, _) => stepIndex == 0
                  case CrossInitiated(targetChain, _) => targetChain == 0
                  case LogEntry(stepIndex, _, _) => stepIndex == 0
                  case Undelivered(sourceChainSelector, _) => sourceChainSelector == 0
                  case Escrow(escrowId, owner, _, _, relatedExecId) =>
                    escrowId == None && owner == None && e.execId == Some(relatedExecId)
                  case _ => true)
            case _ => true
  {
    hide EventOf, ReadUintWord, ReadAddressWord, ReadBytes32Word, DecodeStringAtOffset, Lower;
  }

  lemma UintTopicReads(log: RawLog, i: nat, v: nat)
    requires i < |log.topics| && log.topics[i] == UintTopic(v) && IsUint(v)
    ensures TopicNumber(log, i) == Ok(v)
  {
    hide ToHex, Pow16, HexNumber;
    HexRoundTrip(v, WORD);
    assert Strip0x(UintTopic(v)) == UintWord(v);
  }

  lemma AddressTopicReads(log: RawLog, i: nat, a: string)
    requires i < |log.topics| && IsLowerAddress(a) && log.topics[i] == AddressTopic(a)
    ensures TopicAddress(log, i) == Some(a)
  {
    var topic := AddressTopic(a);
    assert AddressWord(a) == Zeros(24) + a[2..];
    assert Strip0x(topic) == AddressWord(a);
    assert Slice(Strip0x(topic), 24, |topic|) == a[2..];
    assert "0x" + a[2..] == a;
  }

  lemma HashTopicReads(log: RawLog, i: nat, t: string)
    requires i < |log.topics| && IsHash(t) && log.topics[i] == t
    ensures TopicText(log, i) == Some(t)
  {
  }

  // ---- data ----

  lemma HeadReads(words: seq<string>, rest: string, i: nat)
    requires AreWords(words) && i < |words|
    ensures ReadWord(Join(words) + rest, i) == Ok(words[i])
  {
    JoinedWord(words, i);
    JoinLength(words);
    assert (Join(words) + rest)[i * WORD..i * WORD + WORD] == Join(words)[i * WORD..i * WORD + WORD];
  }

  lemma UintHeadReads(words: seq<string>, rest: string, i: nat, v: nat)
    requires AreWords(words) && i < |words| && words[i] == UintWord(v) && IsUint(v)
    ensures ReadUintWord(Join(words) + rest, i) == Ok(v)
  {
    hide ToHex, Join;
    HeadReads(words, rest, i);
    HexRoundTrip(v, WORD);
  }

  lemma AddressHeadReads(words: seq<string>, rest: string, i: nat, a: string)
    requires AreWords(words) && i < |words| && IsLowerAddress(a) && words[i] == AddressWord(a)
    ensures ReadAddressWord(Join(words) + rest, i) == Ok(a)
  {
    hide Join;
    HeadReads(words, rest, i);
    assert AddressWord(a) == Zeros(24) + a[2..];
    assert AddressWord(a)[24..] == a[2..];
    assert "0x" + a[2..] == a;
  }

  lemma HashHeadReads(words: seq<string>, rest: string, i: nat, t: string)
    requires AreWords(words) && i < |words| && IsHash(t) && words[i] == HashWord(t)
    ensures ReadBytes32Word(Join(words) + rest, i) == Ok(t)
  {
    hide Join;
    HeadReads(words, rest, i);
    assert "0x" + t[2..] == t;
  }

  // ---- strings ----

  lemma ByteHex(b: Byte)
    ensures var s := ToHex(b, 2); IsHexDigit(s[0]) && IsHexDigit(s[1]) && 16 * HexValue(s[0]) + HexValue(s[1]) == b
  {
    assert ToHex(b, 2) == ToHex(b / 16, 1) + [HexChar(b % 16)];
    assert ToHex(b / 16, 1) == ToHex(b / 16 / 16, 0) + [HexChar(b / 16 % 16)];
  }

  lemma {:induction false} BytesRoundTrip(bytes: seq<Byte>)
    ensures |BytesHex(bytes)| == 2 * |bytes| && HexBytes(BytesHex(bytes)) == bytes
  {
    hide ToHex;
    if bytes != [] {
      var s, rest := ToHex(bytes[0], 2), BytesHex(bytes[1..]);
      ByteHex(bytes[0]);
      BytesRoundTrip(bytes[1..]);
      assert (s + rest)[2..] == rest && (s + rest)[0] == s[0] && (s + rest)[1] == s[1];
    }
  }

  /** A string is read back from wherever its tail lies: after anything of the offset's length, and before
      anything at all. */
  lemma StringReads(before: string, bytes: seq<Byte>, after: string)
    requires |before| % 2 == 0 && IsUint(|bytes|)
    ensures DecodeStringAtOffset(before + StringTail(bytes) + after, |before| / 2) == Ok(bytes)
  {
    hide ToHex, HexBytes, BytesHex, Slice, Zeros, Pow16, HexNumber;
    var length, digits, pad := UintWord(|bytes|), BytesHex(bytes), Zeros((32 - |bytes| % 32) % 32 * 2);
    var data := before + StringTail(bytes) + after;
    HexRoundTrip(|bytes|, WORD);
    BytesRoundTrip(bytes);
    SliceMiddle(before, length, digits + pad + after);
    assert data == before + length + (digits + pad + after);
    SliceMiddle(before + length, digits, pad + after);
    assert data == before + length + digits + (pad + after);
  }

  lemma SliceMiddle(a: string, b: string, c: string)
    ensures Slice(a + b + c, |a|, |a| + |b|) == b
  {
  }

  /** Each pair of digits is a byte, and none is missing exactly when all are digits. */
  lemma {:induction false} HexBytesLength(s: string, n: nat)
    requires |s| <= 2 * n
    ensures |HexBytes(s)| <= n
    ensures |HexBytes(s)| == n <==> |s| == 2 * n && AllHex(s)
  {
    if |s| >= 2 {
      HexBytesLength(s[2..], n - 1);
      assert s == [s[0], s[1]] + s[2..];
    }
  }

  /** A string whose length word can be read is never longer than declared, and is as long as declared exactly
      when all its bytes are there as hex digits: shorter data is cut without an error. */
  lemma StringCompleteIff(data: string, offset: nat, length: nat)
    requires ParseHex(Slice(data, 2 * offset, 2 * offset + WORD)) == Ok(length)
    ensures var decoded, start := DecodeStringAtOffset(data, offset), 2 * offset + WORD;
            var end := start + 2 * length;
            && decoded.Ok? && |decoded.value| <= length
            && (|decoded.value| == length <==> length == 0 || (end <= |data| && AllHex(data[start..end])))
  {
    hide HexBytes, ParseHex;
    var start := 2 * offset + WORD;
    HexBytesLength(Slice(data, start, start + 2 * length), length);
  }

  /** A string that declares one byte more than there is decodes to what there is. */
  lemma ShortStringIsCut(bytes: seq<Byte>)
    requires IsUint(|bytes| + 1)
    ensures DecodeStringAtOffset(UintWord(|bytes| + 1) + BytesHex(bytes), 0) == Ok(bytes)
  {
    hide ToHex, HexBytes, BytesHex, Pow16, HexNumber, Slice;
    HexRoundTrip(|bytes| + 1, WORD);
    BytesRoundTrip(bytes);
    SliceTail(UintWord(|bytes| + 1), BytesHex(bytes), WORD + 2 * (|bytes| + 1));
  }

  lemma SliceTail(a: string, b: string, end: nat)
    requires |a| + |b| <= end
    ensures Slice(a + b, 0, |a|) == a && Slice(a + b, |a|, end) == b
  {
  }

  /** The string argument of an event, behind a head of so many words. */
  lemma TailReads(words: seq<string>, bytes: seq<Byte>, after: string)
    requires AreWords(words) && IsUint(|bytes|)
    ensures DecodeStringAtOffset(Join(words) + (StringTail(bytes) + after), 32 * |words|) == Ok(bytes)
  {
    hide *;
    JoinHalves(words);
    StringReads(Join(words), bytes, after);
    Associate(Join(words), StringTail(bytes), after);
  }

  lemma JoinHalves(words: seq<string>)
    requires AreWords(words)
    ensures |Join(words)| % 2 == 0 && |Join(words)| / 2 == 32 * |words|
  {
    hide *;
    JoinLength(words);
    Halves(|words|, |Join(words)|);
  }

  lemma Halves(n: nat, length: nat)
    requires length == n * WORD
    ensures length % 2 == 0 && length / 2 == 32 * n
  {
  }

  // ---- the round trip ----

  lemma SmallOffsets()
    ensures IsUint(32) && IsUint(64)
  {
    Pow16Grows(2, WORD);
  }

  lemma HeadsAreWords(e: DecodedEvent)
    requires WellFormed(e)
    ensures AreWords(HeadWords(e))
  {
    hide IsUint, IsLowerAddress, IsHash, IsAddress, UintWord, AddressWord, HashWord;
  }

  lemma DataDecodes(e: DecodedEvent, log: RawLog, rest: string)
    requires WellFormed(e)
    requires match e.payload
             case StepCompleted(a, _, _, _, _) => TopicNumber(log, 2) == Ok(a)
             case CrossInitiated(a, _) => TopicNumber(log, 2) == Ok(a)
             case LogEntry(a, _, _) => TopicNumber(log, 2) == Ok(a)
             case Undelivered(a, _) => TopicNumber(log, 2) == Ok(a)
             case Escrow(id, owner, _, _, _) => TopicText(log, 1) == id && TopicAddress(log, 2) == owner
             case _ => true
    ensures DecodePayload(e.eventName, log, Join(HeadWords(e)) + (Tail(e.payload) + rest)) == Ok(e.payload)
  {
    hide Join, StringTail, IsUint, IsLowerAddress, IsHash, AddressWord, UintWord, HashWord,
         ReadUintWord, ReadAddressWord, ReadBytes32Word, DecodeStringAtOffset, TopicNumber, TopicText, TopicAddress;
    SmallOffsets();
    HeadsAreWords(e);
    var words, more := HeadWords(e), Tail(e.payload) + rest;
    match e.payload
    case Position(a, b, c) =>
      UintHeadReads(words, more, 0, a);
      UintHeadReads(words, more, 1, b);
      UintHeadReads(words, more, 2, c);
    case Initiated(a, b) =>
      UintHeadReads(words, more, 0, a);
      UintHeadReads(words, more, 1, b);
    case StepCompleted(_, source, target, b, c) =>
      AddressHeadReads(words, more, 0, source);
      AddressHeadReads(words, more, 1, target);
      UintHeadReads(words, more, 2, b);
      UintHeadReads(words, more, 3, c);
    case Completed(a, b) =>
      UintHeadReads(words, more, 0, a);
      UintHeadReads(words, more, 1, b);
    case Failed(reason, a) =>
      UintHeadReads(words, more, 0, 64);
      UintHeadReads(words, more, 1, a);
      TailReads(words, reason, rest);
    case CrossInitiated(_, a) => UintHeadReads(words, more, 0, a);
    case CrossCompleted(a) => UintHeadReads(words, more, 0, a);
    case CrossFailed(reason) =>
      UintHeadReads(words, more, 0, 32);
      TailReads(words, reason, rest);
    case Escrow(_, _, asset, a, exec) =>
      AddressHeadReads(words, more, 0, asset);
      UintHeadReads(words, more, 1, a);
      HashHeadReads(words, more, 2, exec);
    case LogEntry(_, a, details) =>
      UintHeadReads(words, more, 0, a);
      UintHeadReads(words, more, 1, 64);
      TailReads(words, details, rest);
    case Undelivered(_, reason) =>
      UintHeadReads(words, more, 0, 32);
      TailReads(words, reason, rest);
  }

  lemma TopicsDecode(e: DecodedEvent, log: RawLog, moreTopics: seq<string>)
    requires WellFormed(e) && log.topics == [EventTopic(e.eventName)] + IndexedTopics(e) + moreTopics
    ensures match e.payload
            case StepCompleted(a, _, _, _, _) => TopicNumber(log, 2) == Ok(a)
            case CrossInitiated(a, _) => TopicNumber(log, 2) == Ok(a)
            case LogEntry(a, _, _) => TopicNumber(log, 2) == Ok(a)
            case Undelivered(a, _) => TopicNumber(log, 2) == Ok(a)
            case Escrow(id, owner, _, _, _) => TopicText(log, 1) == id && TopicAddress(log, 2) == owner
            case _ => true
    ensures ExecIdOf(e.eventName, log, e.payload) == e.execId
    ensures UserOf(e.eventName, log) == e.userAddress && MessageIdOf(e.eventName, log) == e.messageId
  {
    hide EventTopic, IsUint, IsLowerAddress, IsHash, AddressTopic, UintTopic, TopicNumber, TopicText, TopicAddress;
    var indexed := IndexedTopics(e);
    assert forall i :: 0 <= i < |indexed| ==> log.topics[i + 1] == indexed[i];
    match e.payload
    case Position(_, _, _) => AddressTopicReads(log, 1, e.userAddress.value);
    case Escrow(id, owner, _, _, _) =>
      HashTopicReads(log, 1, id.value);
      AddressTopicReads(log, 2, owner.value);
    case Undelivered(a, _) =>
      HashTopicReads(log, 1, e.messageId.value);
      UintTopicReads(log, 2, a);
      HashTopicReads(log, 3, e.execId.value);
    case CrossInitiated(a, _) =>
      HashTopicReads(log, 1, e.execId.value);
      UintTopicReads(log, 2, a);
      HashTopicReads(log, 3, e.messageId.value);
    case CrossCompleted(_) =>
      HashTopicReads(log, 1, e.execId.value);
      HashTopicReads(log, 2, e.messageId.value);
    case CrossFailed(_) =>
      HashTopicReads(log, 1, e.execId.value);
      HashTopicReads(log, 2, e.messageId.value);
    case StepCompleted(a, _, _, _, _) =>
      HashTopicReads(log, 1, e.execId.value);
      UintTopicReads(log, 2, a);
    case LogEntry(a, _, _) =>
      HashTopicReads(log, 1, e.execId.value);
      UintTopicReads(log, 2, a);
      AddressTopicReads(log, 3, e.userAddress.value);
    case _ =>
      HashTopicReads(log, 1, e.execId.value);
      AddressTopicReads(log, 2, e.userAddress.value);
  }

  /** The decoder inverts the encoding of all eleven events, whatever topics and data come after them. */
  lemma DecodeInverts(e: DecodedEvent, template: RawLog, moreTopics: seq<string>, moreData: string)
    requires WellFormed(e)
    ensures DecodeIndexedEvent(EncodeLog(e, template, moreTopics, moreData)) == Ok(Some(e))
  {
    hide WellFormed, IndexedTopics, HeadWords, Tail, EventTopic, EventOf, DecodePayload, ExecIdOf, UserOf, MessageIdOf,
         Join;
    var log := EncodeLog(e, template, moreTopics, moreData);
    EventOfTopic(log.topics[0], e.eventName);
    TopicsDecode(e, log, moreTopics);
    DataDecodes(e, log, moreData);
    assert log.data == "0x" + (Join(HeadWords(e)) + (Tail(e.payload) + moreData));
    assert Strip0x(log.data) == Join(HeadWords(e)) + (Tail(e.payload) + moreData);
  }
}
