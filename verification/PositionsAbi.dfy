/**
 The hand-written ABI codec for discoverPositions(address): its calldata, and the dynamic array of nine-field
 static tuples it returns (Solidity contract ABI specification, "Formal Specification of the Encoding").
 */
module PositionsAbi {
  import opened Common
  import opened AbiWords

  const DISCOVER_POSITIONS_SELECTOR := "0x97c6c37f"
  const TUPLE_WORDS: nat := 9

  /** Amounts are numbers; the backend keeps them as decimal text. */
  datatype Position = Position(protocol: string, collateralAsset: string, debtAsset: string,
                               collateralAmount: nat, debtAmount: nat, healthFactor: nat,
                               ltvBps: nat, maxLtvBps: nat, liquidationThresholdBps: nat)

  // ---- calldata ----

  function EncodeDiscoverPositionsCalldata(userAddress: string): Result<string, AbiError> {
    var user := Lower(Strip0x(userAddress));
    if |user| != 40 then Err(InvalidAddress) else Ok(DISCOVER_POSITIONS_SELECTOR + Pad32(user))
  }

  // ---- reading words ----

  function WordsOf(hex: string): seq<string> {
    seq(|hex| / WORD, i requires 0 <= i < |hex| / WORD => hex[i * WORD..i * WORD + WORD])
  }

  function ChunkWords(hex: string): Result<seq<string>, AbiError> {
    if |hex| % WORD != 0 then Err(InvalidLength) else Ok(WordsOf(hex))
  }

  function ReadWordAsBigInt(words: seq<string>, index: nat): Result<nat, AbiError> {
    if index >= |words| then Err(OutOfBounds) else ParseHex(words[index])
  }

  function ReadWordAsAddress(words: seq<string>, index: nat): Result<string, AbiError> {
    if index >= |words| || words[index] == "" then Err(OutOfBounds)
    else Ok("0x" + Slice(words[index], 24, |words[index]|))
  }

  function DecodeTuple(words: seq<string>, base: nat): Result<Position, AbiError> {
    var protocol :- ReadWordAsAddress(words, base);
    var collateralAsset :- ReadWordAsAddress(words, base + 1);
    var debtAsset :- ReadWordAsAddress(words, base + 2);
    var collateralAmount :- ReadWordAsBigInt(words, base + 3);
    var debtAmount :- ReadWordAsBigInt(words, base + 4);
    var healthFactor :- ReadWordAsBigInt(words, base + 5);
    var ltvBps :- ReadWordAsBigInt(words, base + 6);
    var maxLtvBps :- ReadWordAsBigInt(words, base + 7);
    var liquidationThresholdBps :- ReadWordAsBigInt(words, base + 8);
    Ok(Position(protocol, collateralAsset, debtAsset, collateralAmount, debtAmount, healthFactor,
                ltvBps, maxLtvBps, liquidationThresholdBps))
  }

  /** The first n tuples from a base word on; the first error stops the reading. */
  function DecodeTuples(words: seq<string>, base: nat, n: nat): Result<seq<Position>, AbiError> {
    if n == 0 then Ok([])
    else
      var front :- DecodeTuples(words, base, n - 1);
      var tuple :- DecodeTuple(words, base + (n - 1) * TUPLE_WORDS);
      Ok(front + [tuple])
  }

  function DecodeWords(words: seq<string>): Result<seq<Position>, AbiError> {
    var arrayOffsetBytes :- ReadWordAsBigInt(words, 0);
    var length :- ReadWordAsBigInt(words, arrayOffsetBytes / 32);
    DecodeTuples(words, arrayOffsetBytes / 32 + 1, length)
  }

  function DecodeResult(returnData: string): Result<seq<Position>, AbiError> {
    var data := Strip0x(returnData);
    if data == "" then Ok([])
    else
      var words :- ChunkWords(data);
      DecodeWords(words)
  }

  // ---- the loops ----

  method ChunkWordsLoop(hex: string) returns (r: Result<seq<string>, AbiError>)
    ensures r == ChunkWords(hex)
  {
    if |hex| % WORD != 0 {
      return Err(InvalidLength);
    }
    var words: seq<string> := [];
    var i := 0;
    while i < |hex|
      invariant i == |words| * WORD <= |hex|
      invariant words == WordsOf(hex)[..|words|]
    {
      words := words + [hex[i..i + WORD]];
      i := i + WORD;
    }
    assert |words| == |hex| / WORD == |WordsOf(hex)|;
    assert words == WordsOf(hex);
    r := Ok(words);
  }

  lemma {:induction false} ErrorPersists(words: seq<string>, base: nat, k: nat, n: nat)
    requires k <= n && DecodeTuples(words, base, k).Err?
    ensures DecodeTuples(words, base, n) == DecodeTuples(words, base, k)
  {
    if k < n {
      ErrorPersists(words, base, k, n - 1);
    }
  }

  method DecodeDiscoverPositionsResult(returnData: string) returns (r: Result<seq<Position>, AbiError>)
    ensures r == DecodeResult(returnData)
  {
    hide DecodeTuple;
    var data := Strip0x(returnData);
    if data == "" {
      return Ok([]);
    }
    var words :- ChunkWordsLoop(data);
    var arrayOffsetBytes :- ReadWordAsBigInt(words, 0);
    var arrayOffsetWords := arrayOffsetBytes / 32;
    var length :- ReadWordAsBigInt(words, arrayOffsetWords);
    var results: seq<Position> := [];
    for i := 0 to length
      invariant DecodeTuples(words, arrayOffsetWords + 1, i) == Ok(results)
    {
      var base := arrayOffsetWords + 1 + i * TUPLE_WORDS;
      var tuple := DecodeTuple(words, base);
      if tuple.Err? {
        ErrorPersists(words, arrayOffsetWords + 1, i + 1, length);
        return Err(tuple.error);
      }
      results := results + [tuple.value];
    }
    r := Ok(results);
  }

  // ---- the encoding ----

  /** Any 40 characters do for an address: the codec does not look at them. */
  predicate Encodable(p: Position) {
    && IsAddress(p.protocol) && IsAddress(p.collateralAsset) && IsAddress(p.debtAsset)
    && IsUint(p.collateralAmount) && IsUint(p.debtAmount) && IsUint(p.healthFactor)
    && IsUint(p.ltvBps) && IsUint(p.maxLtvBps) && IsUint(p.liquidationThresholdBps)
  }

  predicate AllEncodable(list: seq<Position>) {
    forall i :: 0 <= i < |list| ==> Encodable(list[i])
  }

  function TupleWords(p: Position): (w: seq<string>)
    requires Encodable(p)
    ensures |w| == TUPLE_WORDS && AreWords(w)
  {
    [AddressWord(p.protocol), AddressWord(p.collateralAsset), AddressWord(p.debtAsset),
     UintWord(p.collateralAmount), UintWord(p.debtAmount), UintWord(p.healthFactor),
     UintWord(p.ltvBps), UintWord(p.maxLtvBps), UintWord(p.liquidationThresholdBps)]
  }

  function ArrayWords(list: seq<Position>): (w: seq<string>)
    requires AllEncodable(list)
    ensures |w| == |list| * TUPLE_WORDS && AreWords(w)
  {
    if list == [] then [] else ArrayWords(list[..|list| - 1]) + TupleWords(list[|list| - 1])
  }

  /** The return data of a function that returns an array of the tuples. */
  function EncodeResult(list: seq<Position>): string
    requires AllEncodable(list)
  {
    "0x" + Join([UintWord(32), UintWord(|list|)] + ArrayWords(list))
  }

  // ------------------------------------------------------------------ theorems

  lemma UintReads(words: seq<string>, index: nat, v: nat)
    requires IsUint(v) && index < |words| && words[index] == UintWord(v)
    ensures ReadWordAsBigInt(words, index) == Ok(v)
  {
    HexRoundTrip(v, WORD);
  }

  lemma AddressReads(words: seq<string>, index: nat, a: string)
    requires IsAddress(a) && index < |words| && words[index] == AddressWord(a)
    ensures ReadWordAsAddress(words, index) == Ok(a)
  {
    var w := words[index];
    assert w == Zeros(24) + a[2..];
    assert Slice(w, 24, |w|) == w[24..] == a[2..];
    assert a == "0x" + a[2..];
  }

  lemma TupleReads(words: seq<string>, base: nat, p: Position)
    requires Encodable(p) && base + TUPLE_WORDS <= |words| && words[base..base + TUPLE_WORDS] == TupleWords(p)
    ensures DecodeTuple(words, base) == Ok(p)
  {
    hide IsUint, UintWord, AddressWord, ReadWordAsBigInt, ReadWordAsAddress;
    var w := words[base..base + TUPLE_WORDS];
    assert forall j :: 0 <= j < TUPLE_WORDS ==> words[base + j] == w[j];
    AddressReads(words, base, p.protocol);
    AddressReads(words, base + 1, p.collateralAsset);
    AddressReads(words, base + 2, p.debtAsset);
    UintReads(words, base + 3, p.collateralAmount);
    UintReads(words, base + 4, p.debtAmount);
    UintReads(words, base + 5, p.healthFactor);
    UintReads(words, base + 6, p.ltvBps);
    UintReads(words, base + 7, p.maxLtvBps);
    UintReads(words, base + 8, p.liquidationThresholdBps);
  }

  lemma SplitSlice<T>(s: seq<T>, base: nat, a: seq<T>, b: seq<T>)
    requires base + |a| + |b| <= |s| && s[base..base + |a| + |b|] == a + b
    ensures s[base..base + |a|] == a && s[base + |a|..base + |a| + |b|] == b
  {
    var all := s[base..base + |a| + |b|];
    assert s[base..base + |a|] == all[..|a|] && s[base + |a|..base + |a| + |b|] == all[|a|..];
  }

  lemma {:induction false} ArrayReads(words: seq<string>, base: nat, list: seq<Position>)
    requires AllEncodable(list) && base + |list| * TUPLE_WORDS <= |words|
    requires words[base..base + |list| * TUPLE_WORDS] == ArrayWords(list)
    ensures DecodeTuples(words, base, |list|) == Ok(list)
  {
    hide DecodeTuple, TupleWords, Encodable;
    if list != [] {
      var front, last := list[..|list| - 1], list[|list| - 1];
      SplitSlice(words, base, ArrayWords(front), TupleWords(last));
      ArrayReads(words, base, front);
      TupleReads(words, base + |front| * TUPLE_WORDS, last);
      assert front + [last] == list;
    }
  }

  lemma ChunksOfJoin(words: seq<string>)
    requires AreWords(words)
    ensures ChunkWords(Join(words)) == Ok(words)
  {
    JoinLength(words);
    forall i | 0 <= i < |words|
      ensures WordsOf(Join(words))[i] == words[i]
    {
      JoinedWord(words, i);
    }
    assert WordsOf(Join(words)) == words;
  }

  lemma Middle<T>(a: seq<T>, b: seq<T>, c: seq<T>)
    ensures (a + b + c)[|a|..|a| + |b|] == b
  {
  }

  lemma PlacedAreWords(a: seq<string>, b: seq<string>, c: seq<string>)
    requires AreWords(a) && AreWords(b) && AreWords(c)
    ensures AreWords(a + b + c)
  {
  }

  lemma HeadIsWords(first: string, gap: seq<string>, last: string)
    requires |first| == WORD && AreWords(gap) && |last| == WORD
    ensures AreWords([first] + gap + [last])
  {
  }

  lemma WordsPlaced(words: seq<string>, offset: nat, list: seq<Position>)
    requires AllEncodable(list)
    requires ReadWordAsBigInt(words, 0) == Ok(offset) && ReadWordAsBigInt(words, offset / 32) == Ok(|list|)
    requires offset / 32 + 1 + |list| * TUPLE_WORDS <= |words|
    requires words[offset / 32 + 1..offset / 32 + 1 + |list| * TUPLE_WORDS] == ArrayWords(list)
    ensures DecodeWords(words) == Ok(list)
  {
    hide ReadWordAsBigInt, DecodeTuples, ArrayWords, AllEncodable;
    ArrayReads(words, offset / 32 + 1, list);
  }

  lemma JoinedResult(words: seq<string>)
    requires AreWords(words) && words != []
    ensures DecodeResult("0x" + Join(words)) == DecodeWords(words)
  {
    hide Join, ChunkWords, DecodeWords;
    JoinLength(words);
    assert Strip0x("0x" + Join(words)) == Join(words);
    ChunksOfJoin(words);
  }

  /** The array may lie anywhere behind its offset, with anything before and after it: whatever the words in
      the gap and the rest hold, decoding gives the list back. */
  lemma DecodePlaced(gap: seq<string>, list: seq<Position>, rest: seq<string>, slack: nat)
    requires AreWords(gap) && AreWords(rest) && AllEncodable(list)
    requires slack < 32 && IsUint((1 + |gap|) * 32 + slack) && IsUint(|list|)
    ensures var words := [UintWord((1 + |gap|) * 32 + slack)] + gap + [UintWord(|list|)] + ArrayWords(list) + rest;
            DecodeResult("0x" + Join(words)) == Ok(list)
  {
    hide IsUint, UintWord, Join, ReadWordAsBigInt, DecodeWords, DecodeResult, ArrayWords, AllEncodable,
         AreWords, ToHex, Pow16;
    var offset, at := (1 + |gap|) * 32 + slack, 1 + |gap|;
    var head := [UintWord(offset)] + gap + [UintWord(|list|)];
    var words := head + ArrayWords(list) + rest;
    assert offset / 32 == at;
    assert words[0] == head[0] && words[at] == head[at];
    UintReads(words, 0, offset);
    UintReads(words, at, |list|);
    Middle(head, ArrayWords(list), rest);
    HeadIsWords(UintWord(offset), gap, UintWord(|list|));
    PlacedAreWords(head, ArrayWords(list), rest);
    WordsPlaced(words, offset, list);
    JoinedResult(words);
  }

  /** Decoding inverts the ABI encoding of every list of tuples. */
  lemma DecodeEncode(list: seq<Position>)
    requires AllEncodable(list) && IsUint(|list|)
    ensures DecodeResult(EncodeResult(list)) == Ok(list)
  {
    hide DecodeResult, Join, ArrayWords, AllEncodable, UintWord;
    assert IsUint(32) by { Pow16Grows(2, WORD); }
    DecodePlaced([], list, [], 0);
    assert [UintWord(32)] + [] + [UintWord(|list|)] + ArrayWords(list) + []
           == [UintWord(32), UintWord(|list|)] + ArrayWords(list);
  }

  // ---- what is rejected ----

  /** A tuple is read exactly when its nine words are there and its six amounts are hex. */
  predicate TupleThere(words: seq<string>, base: nat) {
    && base + TUPLE_WORDS <= |words|
    && forall j :: base + 3 <= j < base + TUPLE_WORDS ==> AllHex(words[j])
  }

  lemma TupleAccepted(words: seq<string>, base: nat)
    requires AreWords(words)
    ensures DecodeTuple(words, base).Ok? <==> TupleThere(words, base)
  {
    assert forall j :: 0 <= j < |words| ==> |words[j]| == WORD;
    if base + TUPLE_WORDS <= |words| {
      assert TupleThere(words, base) <==>
             AllHex(words[base + 3]) && AllHex(words[base + 4]) && AllHex(words[base + 5])
             && AllHex(words[base + 6]) && AllHex(words[base + 7]) && AllHex(words[base + 8]);
    }
  }

  lemma {:induction false} TuplesAccepted(words: seq<string>, base: nat, n: nat)
    requires AreWords(words)
    ensures DecodeTuples(words, base, n).Ok?
            <==> forall i: nat :: i < n ==> TupleThere(words, base + i * TUPLE_WORDS)
  {
    hide DecodeTuple, TupleThere;
    if n > 0 {
      TuplesAccepted(words, base, n - 1);
      TupleAccepted(words, base + (n - 1) * TUPLE_WORDS);
    }
  }

  /** A payload is accepted exactly when it is empty, or whole words whose offset and length are hex and in
      bounds and behind which every declared tuple is there; the first tuple missing rejects it all. */
  lemma Accepted(returnData: string)
    ensures var data, words := Strip0x(returnData), WordsOf(Strip0x(returnData));
            DecodeResult(returnData).Ok? <==>
              || data == ""
              || (&& |data| % WORD == 0 && AllHex(words[0])
                  && HexNumber(words[0]) / 32 < |words| && AllHex(words[HexNumber(words[0]) / 32])
                  && forall i: nat :: i < HexNumber(words[HexNumber(words[0]) / 32]) ==>
                       TupleThere(words, HexNumber(words[0]) / 32 + 1 + i * TUPLE_WORDS))
  {
    hide DecodeTuples, HexNumber, TupleThere;
    var words := WordsOf(Strip0x(returnData));
    assert AreWords(words);
    if words != [] && HexNumber(words[0]) / 32 < |words| {
      TuplesAccepted(words, HexNumber(words[0]) / 32 + 1, HexNumber(words[HexNumber(words[0]) / 32]));
    }
  }

  /** A payload too short for the length it declares is rejected. */
  lemma TooShortRejected(words: seq<string>, offset: nat, length: nat)
    requires AreWords(words) && words != []
    requires ReadWordAsBigInt(words, 0) == Ok(offset) && ReadWordAsBigInt(words, offset / 32) == Ok(length)
    requires |words| < offset / 32 + 1 + length * TUPLE_WORDS
    ensures DecodeResult("0x" + Join(words)).Err?
  {
    hide DecodeResult, ReadWordAsBigInt, DecodeTuples, DecodeTuple;
    JoinedResult(words);
    var base := offset / 32 + 1;
    assert offset / 32 < |words| by { ReadInBounds(words, offset / 32); }
    TuplesAccepted(words, base, length);
    assert length > 0;
    assert !TupleThere(words, base + (length - 1) * TUPLE_WORDS);
  }

  lemma ReadInBounds(words: seq<string>, index: nat)
    requires ReadWordAsBigInt(words, index).Ok?
    ensures index < |words|
  {
  }

  // ---- calldata ----

  /** The calldata is the selector and one word, and reading that word back gives the user in lower case. */
  lemma CalldataCarriesUser(userAddress: string)
    ensures match EncodeDiscoverPositionsCalldata(userAddress)
            case Err(_) => |Strip0x(userAddress)| != 40
            case Ok(calldata) =>
              && |Strip0x(userAddress)| == 40 && calldata[..10] == DISCOVER_POSITIONS_SELECTOR
              && ChunkWords(calldata[10..]) == Ok([calldata[10..]])
              && ReadWordAsAddress([calldata[10..]], 0) == Ok("0x" + Lower(Strip0x(userAddress)))
  {
    var user := Lower(Strip0x(userAddress));
    if |user| == 40 {
      var calldata := DISCOVER_POSITIONS_SELECTOR + Pad32(user);
      assert |DISCOVER_POSITIONS_SELECTOR| == 10;
      assert calldata[10..] == Pad32(user) && |Pad32(user)| == WORD;
      assert Pad32(user)[24..] == user;
      assert |WordsOf(calldata[10..])| == 1 && WordsOf(calldata[10..])[0] == calldata[10..];
      assert WordsOf(calldata[10..]) == [calldata[10..]];
    }
  }
}
