/** Resolution of the operational keys at login (sections 6.2 and 13 of RFC 7143). */
module Negotiation {
  import opened Prelude
  import opened Decimal
  import TextCodec

  datatype Kind = ListSelect | BooleanAnd | BooleanOr | NumericalMin | NumericalMax | Declarative

  datatype KeyDef = KeyDef(kind: Kind, min: u32, max: u32)

  /** The operational keys of the registry. */
  datatype Key =
    | HeaderDigest | DataDigest | MaxConnections | InitialR2T | ImmediateData
    | MaxRecvDataSegmentLength | MaxBurstLength | FirstBurstLength | DefaultTime2Wait | DefaultTime2Retain
    | MaxOutstandingR2T | DataPDUInOrder | DataSequenceInOrder | ErrorRecoveryLevel

  function KeyOf(name: string): Option<Key> {
    if name == "HeaderDigest" then Some(HeaderDigest)
    else if name == "DataDigest" then Some(DataDigest)
    else if name == "MaxConnections" then Some(MaxConnections)
    else if name == "InitialR2T" then Some(InitialR2T)
    else if name == "ImmediateData" then Some(ImmediateData)
    else if name == "MaxRecvDataSegmentLength" then Some(MaxRecvDataSegmentLength)
    else if name == "MaxBurstLength" then Some(MaxBurstLength)
    else if name == "FirstBurstLength" then Some(FirstBurstLength)
    else if name == "DefaultTime2Wait" then Some(DefaultTime2Wait)
    else if name == "DefaultTime2Retain" then Some(DefaultTime2Retain)
    else if name == "MaxOutstandingR2T" then Some(MaxOutstandingR2T)
    else if name == "DataPDUInOrder" then Some(DataPDUInOrder)
    else if name == "DataSequenceInOrder" then Some(DataSequenceInOrder)
    else if name == "ErrorRecoveryLevel" then Some(ErrorRecoveryLevel)
    else None
  }

  /** A pair of a text PDU: its key, if the registry knows it, and its value read as characters. */
  datatype Pair = Pair(key: Option<Key>, value: string)

  function Chars(b: bytes): string {
    seq(|b|, i requires 0 <= i < |b| => b[i] as char)
  }

  function TextOf(pairs: seq<TextCodec.KeyValue>): seq<Pair> {
    if pairs == [] then [] else [Pair(KeyOf(Chars(pairs[0].key)), Chars(pairs[0].value))] + TextOf(pairs[1..])
  }

  function DefOf(key: Key): (def: KeyDef)
    ensures def.min <= def.max
  {
    match key
    case HeaderDigest => KeyDef(ListSelect, 0, 0)
    case DataDigest => KeyDef(ListSelect, 0, 0)
    case MaxConnections => KeyDef(NumericalMin, 1, 65535)
    case InitialR2T => KeyDef(BooleanOr, 0, 0)
    case ImmediateData => KeyDef(BooleanAnd, 0, 0)
    case MaxRecvDataSegmentLength => KeyDef(Declarative, 512, 16777215)
    case MaxBurstLength => KeyDef(NumericalMin, 512, 16777215)
    case FirstBurstLength => KeyDef(NumericalMin, 512, 16777215)
    case DefaultTime2Wait => KeyDef(NumericalMin, 0, 3600)
    case DefaultTime2Retain => KeyDef(NumericalMin, 0, 3600)
    case MaxOutstandingR2T => KeyDef(NumericalMin, 1, 65535)
    case DataPDUInOrder => KeyDef(BooleanOr, 0, 0)
    case DataSequenceInOrder => KeyDef(BooleanOr, 0, 0)
    case ErrorRecoveryLevel => KeyDef(NumericalMin, 0, 2)
  }

  const MRDSL := MaxRecvDataSegmentLength

  // ---- One key --------------------------------------------------------------------------

  function Clamp(v: u32, def: KeyDef): u32 {
    if def.min == 0 && def.max == 0 then v
    else if v < def.min then def.min
    else if def.max > 0 && v > def.max then def.max
    else v
  }

  predicate InRange(v: u32, def: KeyDef) {
    def.min <= v <= def.max
  }

  function YesIf(b: bool): string {
    if b then "Yes" else "No"
  }

  /** White space of one byte. */
  predicate IsSpace(c: char) {
    c in " \t\n\r" || c == 11 as char || c == 12 as char
  }

  function TrimSpace(s: string): string
    decreases |s|
  {
    if s != [] && IsSpace(s[0]) then TrimSpace(s[1..])
    else if s != [] && IsSpace(s[|s| - 1]) then TrimSpace(s[..|s| - 1])
    else s
  }

  /** The items of a comma-separated list. */
  function Items(s: string): (items: seq<string>)
    ensures items != []
  {
    if s == [] then [[]]
    else
      var rest := Items(s[1..]);
      if s[0] == ',' then [[]] + rest else [[s[0]] + rest[0]] + rest[1..]
  }

  /** The first of the target's items that the initiator has offered. */
  function Select(chosen: seq<string>, offered: seq<string>): Option<string> {
    if chosen == [] then None
    else if TrimSpace(chosen[0]) in Trimmed(offered) then Some(TrimSpace(chosen[0]))
    else Select(chosen[1..], offered)
  }

  function Trimmed(items: seq<string>): seq<string> {
    if items == [] then [] else [TrimSpace(items[0])] + Trimmed(items[1..])
  }

  /** The value of a key from the initiator's proposal and the target's answer. None is an error. */
  function Resolve(def: KeyDef, iv: string, tv: string): Option<string> {
    match def.kind
    case BooleanAnd => Some(YesIf(iv == "Yes" && tv == "Yes"))
    case BooleanOr => Some(YesIf(iv == "Yes" || tv == "Yes"))
    case NumericalMin =>
      if ParseUint(iv).None? || ParseUint(tv).None? then None
      else Some(Format(Clamp(Min(ParseUint(iv).value, ParseUint(tv).value), def)))
    case NumericalMax =>
      if ParseUint(iv).None? || ParseUint(tv).None? then None
      else Some(Format(Clamp(Max(ParseUint(iv).value, ParseUint(tv).value), def)))
    case ListSelect => Select(Items(tv), Items(iv))
    case Declarative =>
      if ParseUint(tv).None? then None else Some(Format(Clamp(ParseUint(tv).value, def)))
  }

  /**
   * Agreement. If the target answers with its own resolution of the two values, the
   * initiator arrives at that answer.
   */
  lemma AnswerIsAgreed(def: KeyDef, iv: string, tv: string)
    requires def.kind == BooleanAnd || def.kind == BooleanOr || def.kind == NumericalMin
    requires def.min <= def.max && Resolve(def, iv, tv).Some?
    ensures Resolve(def, iv, Resolve(def, iv, tv).value) == Resolve(def, iv, tv)
  {
    if def.kind == NumericalMin {
      ParseInvertsFormat(Clamp(Min(ParseUint(iv).value, ParseUint(tv).value), def));
    }
  }

  /** With a target that answers the plain minimum, the two agree exactly if that is in range. */
  lemma PlainMinimumIsAgreedIff(def: KeyDef, iv: u32, tv: u32)
    requires def.kind == NumericalMin && 0 < def.max && def.min <= def.max
    ensures Resolve(def, Format(iv), Format(Min(iv, tv))) == Some(Format(Min(iv, tv)))
      <==> InRange(Min(iv, tv), def)
  {
    ParseInvertsFormat(iv);
    ParseInvertsFormat(Min(iv, tv));
    FormatHasValue(Clamp(Min(iv, tv), def));
    FormatHasValue(Min(iv, tv));
  }

  /**
   * DefaultTime2Wait is to be the larger of the two values (section 13.15). It is resolved
   * as the smaller one, so that the result is right just when both are the same.
   */
  lemma Time2WaitIsRightIff(iv: u32, tv: u32)
    requires iv <= 3600 && tv <= 3600
    ensures Resolve(DefOf(DefaultTime2Wait), Format(iv), Format(tv)) == Some(Format(Max(iv, tv))) <==> iv == tv
  {
    ParseInvertsFormat(iv);
    ParseInvertsFormat(tv);
    FormatHasValue(Min(iv, tv));
    FormatHasValue(Max(iv, tv));
  }

  // ---- The whole answer -----------------------------------------------------------------

  datatype Params = Params(
    headerDigest: bool, dataDigest: bool, maxConnections: u32, initialR2T: bool, immediateData: bool,
    maxRecvDataSegmentLength: u32, maxBurstLength: u32, firstBurstLength: u32,
    defaultTime2Wait: u32, defaultTime2Retain: u32, maxOutstandingR2T: u32,
    dataPDUInOrder: bool, dataSequenceInOrder: bool, errorRecoveryLevel: u32)

  const DEFAULTS := Params(false, false, 1, true, true, 8192, 262144, 65536, 2, 20, 1, true, true, 0)

  /** Zero on any error. */
  function ParseUint32(s: string): u32 {
    if ParseUint(s).Some? then ParseUint(s).value else 0
  }

  function SetKey(p: Params, key: Key, value: string): Params {
    match key
    case HeaderDigest => p.(headerDigest := value == "CRC32C")
    case DataDigest => p.(dataDigest := value == "CRC32C")
    case MaxConnections => p.(maxConnections := ParseUint32(value))
    case InitialR2T => p.(initialR2T := value == "Yes")
    case ImmediateData => p.(immediateData := value == "Yes")
    case MaxRecvDataSegmentLength => p.(maxRecvDataSegmentLength := ParseUint32(value))
    case MaxBurstLength => p.(maxBurstLength := ParseUint32(value))
    case FirstBurstLength => p.(firstBurstLength := ParseUint32(value))
    case DefaultTime2Wait => p.(defaultTime2Wait := ParseUint32(value))
    case DefaultTime2Retain => p.(defaultTime2Retain := ParseUint32(value))
    case MaxOutstandingR2T => p.(maxOutstandingR2T := ParseUint32(value))
    case DataPDUInOrder => p.(dataPDUInOrder := value == "Yes")
    case DataSequenceInOrder => p.(dataSequenceInOrder := value == "Yes")
    case ErrorRecoveryLevel => p.(errorRecoveryLevel := ParseUint32(value))
  }

  function ApplyKey(p: Params, kv: Pair): Params {
    if kv.key.Some? then SetKey(p, kv.key.value, kv.value) else p
  }

  function ApplyKeys(p: Params, keys: seq<Pair>): Params {
    if keys == [] then p else ApplyKey(ApplyKeys(p, keys[..|keys| - 1]), keys[|keys| - 1])
  }

  function CapFirstBurst(p: Params): Params {
    p.(firstBurstLength := Min(p.firstBurstLength, p.maxBurstLength))
  }

  method ApplyNegotiatedKeys(params: Params, keys: seq<Pair>) returns (p: Params)
    ensures p == CapFirstBurst(ApplyKeys(params, keys))
  {
    p := params;
    for i := 0 to |keys|
      invariant p == ApplyKeys(params, keys[..i])
    {
      assert keys[..i + 1][..i] == keys[..i];
      p := ApplyKey(p, keys[i]);
    }
    assert keys[..|keys|] == keys;
    if p.firstBurstLength > p.maxBurstLength {
      p := p.(firstBurstLength := p.maxBurstLength);
    }
  }

  /** The last value given for a key, or the empty text. */
  function LastValue(kvs: seq<Pair>, key: Key): string {
    if kvs == [] then ""
    else if kvs[|kvs| - 1].key == Some(key) then kvs[|kvs| - 1].value
    else LastValue(kvs[..|kvs| - 1], key)
  }

  /** The known keys of the answer, each resolved. None if one of them cannot be. */
  function ResolveAll(proposed: seq<Pair>, answer: seq<Pair>): Option<seq<Pair>> {
    if answer == [] then Some([])
    else
      var before, kv := ResolveAll(proposed, answer[..|answer| - 1]), answer[|answer| - 1];
      if before.None? || kv.key.None? then before
      else
        var r := Resolve(DefOf(kv.key.value), LastValue(proposed, kv.key.value), kv.value);
        if r.None? then None else Some(before.value + [Pair(kv.key, r.value)])
  }

  /** The first entry for MaxRecvDataSegmentLength gets the target's own last value, unclamped. */
  function Declare(resolved: seq<Pair>, value: string): seq<Pair> {
    if resolved == [] then []
    else if resolved[0].key == Some(MRDSL) then [resolved[0].(value := value)] + resolved[1..]
    else [resolved[0]] + Declare(resolved[1..], value)
  }

  /** The parameters after an answer to the proposal. None if the login fails. */
  function Negotiated(proposed: seq<Pair>, answer: seq<Pair>): Option<Params> {
    var resolved := ResolveAll(proposed, answer);
    if resolved.None? then None
    else Some(CapFirstBurst(ApplyKeys(DEFAULTS, Declare(resolved.value, LastValue(answer, MRDSL)))))
  }

  method ResolveAnswer(proposed: seq<Pair>, answer: seq<Pair>) returns (resolved: Option<seq<Pair>>)
    ensures resolved == ResolveAll(proposed, answer)
  {
    var done: seq<Pair> := [];
    for i := 0 to |answer|
      invariant ResolveAll(proposed, answer[..i]) == Some(done)
    {
      assert answer[..i + 1][..i] == answer[..i];
      var kv := answer[i];
      if kv.key.Some? {
        var r := Resolve(DefOf(kv.key.value), LastValue(proposed, kv.key.value), kv.value);
        if r.None? {
          ResolutionFails(proposed, answer, i + 1);
          return None;
        }
        done := done + [Pair(kv.key, r.value)];
      }
    }
    assert answer[..|answer|] == answer;
    return Some(done);
  }

  lemma {:induction false} ResolutionFails(proposed: seq<Pair>, answer: seq<Pair>, i: nat)
    requires i <= |answer| && ResolveAll(proposed, answer[..i]).None?
    ensures ResolveAll(proposed, answer).None?
    decreases |answer| - i
  {
    if i < |answer| {
      assert answer[..i + 1][..i] == answer[..i];
      ResolutionFails(proposed, answer, i + 1);
    } else {
      assert answer[..i] == answer;
    }
  }

  lemma DeclareStep(resolved: seq<Pair>, value: string, i: nat)
    requires i < |resolved|
    ensures resolved[i].key == Some(MRDSL) ==>
      resolved[..i] + Declare(resolved[i..], value) == resolved[i := resolved[i].(value := value)]
    ensures resolved[i].key != Some(MRDSL) ==>
      resolved[..i] + Declare(resolved[i..], value) == resolved[..i + 1] + Declare(resolved[i + 1..], value)
  {
    assert resolved[i..][1..] == resolved[i + 1..];
  }

  method DeclareSegmentLength(resolved: seq<Pair>, value: string) returns (keys: seq<Pair>)
    ensures keys == Declare(resolved, value)
  {
    keys := resolved;
    assert resolved[..0] + Declare(resolved[0..], value) == Declare(resolved, value);
    for i := 0 to |resolved|
      invariant keys == resolved
      invariant Declare(resolved, value) == resolved[..i] + Declare(resolved[i..], value)
    {
      DeclareStep(resolved, value, i);
      if keys[i].key == Some(MRDSL) {
        keys := keys[i := keys[i].(value := value)];
        return;
      }
    }
  }

  method Negotiate(proposed: seq<Pair>, answer: seq<Pair>) returns (params: Option<Params>)
    ensures params == Negotiated(proposed, answer)
  {
    var resolved := ResolveAnswer(proposed, answer);
    if resolved.None? {
      return None;
    }
    var keys := DeclareSegmentLength(resolved.value, LastValue(answer, MRDSL));
    var p := ApplyNegotiatedKeys(DEFAULTS, keys);
    return Some(p);
  }

  // ---- Bounds -------------------------------------------------------------------------

  predicate Numeric(def: KeyDef) {
    def.kind == NumericalMin || def.kind == NumericalMax || def.kind == Declarative
  }

  /** A resolved value: the number of a numeric key is in that key's range. */
  ghost predicate BoundedValue(key: Key, value: string) {
    Numeric(DefOf(key)) ==> exists v: u32 :: InRange(v, DefOf(key)) && value == Format(v)
  }

  ghost predicate Bounded(kv: Pair) {
    kv.key.Some? && BoundedValue(kv.key.value, kv.value)
  }

  lemma ResolvedIsBounded(key: Key, iv: string, tv: string)
    requires Resolve(DefOf(key), iv, tv).Some?
    ensures BoundedValue(key, Resolve(DefOf(key), iv, tv).value)
  {
    var def := DefOf(key);
    if def.kind == NumericalMin {
      assert InRange(Clamp(Min(ParseUint(iv).value, ParseUint(tv).value), def), def);
    } else if def.kind == Declarative {
      assert InRange(Clamp(ParseUint(tv).value, def), def);
    }
  }

  lemma {:induction false} AllResolvedAreBounded(proposed: seq<Pair>, answer: seq<Pair>)
    requires ResolveAll(proposed, answer).Some?
    ensures forall kv | kv in ResolveAll(proposed, answer).value :: Bounded(kv)
    decreases |answer|
  {
    if answer != [] {
      var init, kv := answer[..|answer| - 1], answer[|answer| - 1];
      AllResolvedAreBounded(proposed, init);
      if kv.key.Some? {
        ResolvedIsBounded(kv.key.value, LastValue(proposed, kv.key.value), kv.value);
      }
    }
  }

  lemma {:induction false} DeclareKeepsBounds(resolved: seq<Pair>, value: string)
    requires forall kv | kv in resolved :: Bounded(kv)
    ensures forall kv | kv in Declare(resolved, value) :: kv.key == Some(MRDSL) || Bounded(kv)
    decreases |resolved|
  {
    if resolved != [] && resolved[0].key != Some(MRDSL) {
      DeclareKeepsBounds(resolved[1..], value);
    }
  }

  /** Every numeric parameter but MaxRecvDataSegmentLength is in the range of its key. */
  predicate InBounds(p: Params) {
    && 1 <= p.maxConnections <= 65535
    && 512 <= p.maxBurstLength <= 16777215 && 512 <= p.firstBurstLength <= 16777215
    && p.defaultTime2Wait <= 3600 && p.defaultTime2Retain <= 3600
    && 1 <= p.maxOutstandingR2T <= 65535 && p.errorRecoveryLevel <= 2
  }

  lemma SetKeyKeepsBounds(p: Params, key: Key, value: string)
    requires InBounds(p) && (key == MaxRecvDataSegmentLength || BoundedValue(key, value))
    ensures InBounds(SetKey(p, key, value))
  {
    if key != MaxRecvDataSegmentLength && Numeric(DefOf(key)) {
      var v: u32 :| InRange(v, DefOf(key)) && value == Format(v);
      ParseInvertsFormat(v);
    }
  }

  lemma ApplyKeyKeepsBounds(p: Params, kv: Pair)
    requires InBounds(p) && (kv.key == Some(MRDSL) || Bounded(kv))
    ensures InBounds(ApplyKey(p, kv))
  {
    if kv.key.Some? {
      SetKeyKeepsBounds(p, kv.key.value, kv.value);
    }
  }

  lemma {:induction false} ApplyKeysKeepsBounds(p: Params, keys: seq<Pair>)
    requires InBounds(p) && forall kv | kv in keys :: kv.key == Some(MRDSL) || Bounded(kv)
    ensures InBounds(ApplyKeys(p, keys))
    decreases |keys|
  {
    if keys != [] {
      ApplyKeysKeepsBounds(p, keys[..|keys| - 1]);
      ApplyKeyKeepsBounds(ApplyKeys(p, keys[..|keys| - 1]), keys[|keys| - 1]);
    }
  }

  /** Whatever the target answers, and whatever was proposed: a login that succeeds gives parameters in range. */
  lemma AcceptedAnswersAreInBounds(proposed: seq<Pair>, answer: seq<Pair>)
    requires Negotiated(proposed, answer).Some?
    ensures var p := Negotiated(proposed, answer).value;
      InBounds(p) && p.firstBurstLength <= p.maxBurstLength
  {
    var resolved := ResolveAll(proposed, answer).value;
    var keys := Declare(resolved, LastValue(answer, MRDSL));
    AllResolvedAreBounded(proposed, answer);
    DeclareKeepsBounds(resolved, LastValue(answer, MRDSL));
    ApplyKeysKeepsBounds(DEFAULTS, keys);
  }

  // ---- MaxRecvDataSegmentLength ----------------------------------------------------------

  const MRDSL_DEF := DefOf(MRDSL)

  /** How often a key occurs. */
  function Count(kvs: seq<Pair>, key: Key): nat {
    if kvs == [] then 0 else Count(kvs[..|kvs| - 1], key) + if kvs[|kvs| - 1].key == Some(key) then 1 else 0
  }

  lemma {:induction false} FrontOf(kv: Pair, kvs: seq<Pair>, key: Key)
    ensures Count([kv] + kvs, key) == Count(kvs, key) + if kv.key == Some(key) then 1 else 0
    ensures LastValue([kv] + kvs, key) ==
      if Count(kvs, key) > 0 then LastValue(kvs, key) else if kv.key == Some(key) then kv.value else ""
    decreases |kvs|
  {
    var all := [kv] + kvs;
    if kvs == [] {
      assert all == [kv] && [kv][..0] == [];
    } else {
      assert all[..|all| - 1] == [kv] + kvs[..|kvs| - 1];
      FrontOf(kv, kvs[..|kvs| - 1], key);
    }
  }

  /** Only the first of several declarations is replaced. */
  lemma {:induction false} DeclareChangesFirst(resolved: seq<Pair>, value: string)
    ensures Count(Declare(resolved, value), MRDSL) == Count(resolved, MRDSL)
    ensures LastValue(Declare(resolved, value), MRDSL)
            == if Count(resolved, MRDSL) == 1 then value else LastValue(resolved, MRDSL)
    decreases |resolved|
  {
    if resolved != [] {
      var kv, rest := resolved[0], resolved[1..];
      assert resolved == [kv] + rest;
      FrontOf(kv, rest, MRDSL);
      if kv.key == Some(MRDSL) {
        FrontOf(kv.(value := value), rest, MRDSL);
      } else {
        DeclareChangesFirst(rest, value);
        FrontOf(kv, Declare(rest, value), MRDSL);
      }
    }
  }

  lemma OtherKeysLeaveSegmentLength(p: Params, key: Key, value: string)
    requires key != MRDSL
    ensures SetKey(p, key, value).maxRecvDataSegmentLength == p.maxRecvDataSegmentLength
  {
  }

  lemma OneAppliedSegmentLength(p: Params, kv: Pair)
    ensures ApplyKey(p, kv).maxRecvDataSegmentLength
            == if kv.key == Some(MRDSL) then ParseUint32(kv.value) else p.maxRecvDataSegmentLength
  {
    if kv.key.Some? && kv.key.value != MRDSL {
      OtherKeysLeaveSegmentLength(p, kv.key.value, kv.value);
    }
  }

  lemma {:induction false} AppliedSegmentLength(p: Params, keys: seq<Pair>)
    ensures ApplyKeys(p, keys).maxRecvDataSegmentLength
            == if Count(keys, MRDSL) == 0 then p.maxRecvDataSegmentLength else ParseUint32(LastValue(keys, MRDSL))
    decreases |keys|
  {
    if keys != [] {
      AppliedSegmentLength(p, keys[..|keys| - 1]);
      OneAppliedSegmentLength(ApplyKeys(p, keys[..|keys| - 1]), keys[|keys| - 1]);
    }
  }

  /** What resolution makes of the key's occurrences: as many, the last one a number, and clamped. */
  ghost predicate SegmentLengthResolved(answer: seq<Pair>, resolved: seq<Pair>) {
    && Count(resolved, MRDSL) == Count(answer, MRDSL)
    && (Count(answer, MRDSL) > 0 ==>
          && ParseUint(LastValue(answer, MRDSL)).Some?
          && LastValue(resolved, MRDSL) == Format(Clamp(ParseUint(LastValue(answer, MRDSL)).value, MRDSL_DEF)))
  }

  lemma OneMoreResolved(answer: seq<Pair>, resolved: seq<Pair>, kv: Pair, r: Pair)
    requires SegmentLengthResolved(answer, resolved) && r.key == kv.key
    requires kv.key == Some(MRDSL) ==>
      ParseUint(kv.value).Some? && r.value == Format(Clamp(ParseUint(kv.value).value, MRDSL_DEF))
    ensures SegmentLengthResolved(answer + [kv], resolved + [r])
  {
    assert (answer + [kv])[..|answer|] == answer && (resolved + [r])[..|resolved|] == resolved;
  }

  lemma OneMoreSkipped(answer: seq<Pair>, resolved: seq<Pair>, kv: Pair)
    requires SegmentLengthResolved(answer, resolved) && kv.key == None
    ensures SegmentLengthResolved(answer + [kv], resolved)
  {
    assert (answer + [kv])[..|answer|] == answer;
  }

  lemma {:induction false} ResolvedSegmentLength(proposed: seq<Pair>, answer: seq<Pair>)
    requires ResolveAll(proposed, answer).Some?
    ensures SegmentLengthResolved(answer, ResolveAll(proposed, answer).value)
    decreases |answer|
  {
    if answer != [] {
      var init, kv := answer[..|answer| - 1], answer[|answer| - 1];
      assert answer == init + [kv];
      ResolvedSegmentLength(proposed, init);
      var before, resolved := ResolveAll(proposed, init).value, ResolveAll(proposed, answer).value;
      if kv.key.Some? {
        OneMoreResolved(init, before, kv, resolved[|resolved| - 1]);
      } else {
        OneMoreSkipped(init, before, kv);
      }
    }
  }

  /**
   * The declared MaxRecvDataSegmentLength escapes the clamp exactly if the target gives the
   * key once, and a value out of range. Without the key the default stays; if the key is
   * repeated, a later, clamped entry prevails.
   */
  lemma SegmentLengthInRangeIff(proposed: seq<Pair>, answer: seq<Pair>)
    requires Negotiated(proposed, answer).Some?
    ensures InRange(Negotiated(proposed, answer).value.maxRecvDataSegmentLength, MRDSL_DEF)
      <==> Count(answer, MRDSL) != 1 || InRange(ParseUint32(LastValue(answer, MRDSL)), MRDSL_DEF)
  {
    var resolved, value := ResolveAll(proposed, answer).value, LastValue(answer, MRDSL);
    ResolvedSegmentLength(proposed, answer);
    DeclareChangesFirst(resolved, value);
    AppliedSegmentLength(DEFAULTS, Declare(resolved, value));
    if Count(answer, MRDSL) > 1 {
      ParseInvertsFormat(Clamp(ParseUint(value).value, MRDSL_DEF));
    }
  }

  // ---- The negotiation of a login ----------------------------------------------------------

  /** The answer as it arrives in the login response. */
  method NegotiateFromText(proposed: seq<Pair>, data: bytes) returns (params: Option<Params>)
    ensures params == Negotiated(proposed, TextOf(TextCodec.Decode(data)))
    ensures params.Some? ==> InBounds(params.value) && params.value.firstBurstLength <= params.value.maxBurstLength
  {
    var pairs := TextCodec.DecodeTextKV(data);
    var answer := TextOf(pairs);
    params := Negotiate(proposed, answer);
    if params.Some? {
      AcceptedAnswersAreInBounds(proposed, answer);
    }
  }
}
