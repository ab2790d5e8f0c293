/** What each parameter is after a login, told from the texts of the proposal and the answer. */
module NegotiatedValues {
  import opened Prelude
  import opened Decimal
  import opened Negotiation
  import TextCodec

  // ---- What the texts say -----------------------------------------------------------------------

  /** The last value under a name. */
  function Said(kvs: seq<TextCodec.KeyValue>, name: string): Option<string> {
    if kvs == [] then None
    else if Chars(kvs[|kvs| - 1].key) == name then Some(Chars(kvs[|kvs| - 1].value))
    else Said(kvs[..|kvs| - 1], name)
  }

  function Times(kvs: seq<TextCodec.KeyValue>, name: string): nat {
    if kvs == [] then 0
    else Times(kvs[..|kvs| - 1], name) + if Chars(kvs[|kvs| - 1].key) == name then 1 else 0
  }

  /** The proposal's value, or no text. */
  function Offered(kvs: seq<TextCodec.KeyValue>, name: string): string {
    if Said(kvs, name).Some? then Said(kvs, name).value else ""
  }

  function NameOf(key: Key): string {
    match key
    case HeaderDigest => "HeaderDigest"
    case DataDigest => "DataDigest"
    case MaxConnections => "MaxConnections"
    case InitialR2T => "InitialR2T"
    case ImmediateData => "ImmediateData"
    case MaxRecvDataSegmentLength => "MaxRecvDataSegmentLength"
    case MaxBurstLength => "MaxBurstLength"
    case FirstBurstLength => "FirstBurstLength"
    case DefaultTime2Wait => "DefaultTime2Wait"
    case DefaultTime2Retain => "DefaultTime2Retain"
    case MaxOutstandingR2T => "MaxOutstandingR2T"
    case DataPDUInOrder => "DataPDUInOrder"
    case DataSequenceInOrder => "DataSequenceInOrder"
    case ErrorRecoveryLevel => "ErrorRecoveryLevel"
  }

  lemma NameHasKey(key: Key)
    ensures KeyOf(NameOf(key)) == Some(key)
  {
  }

  lemma KeyIsOfName(name: string)
    ensures KeyOf(name).Some? ==> name == NameOf(KeyOf(name).value)
  {
  }

  lemma KeyHasName(name: string, key: Key)
    ensures KeyOf(name) == Some(key) <==> name == NameOf(key)
  {
    NameHasKey(key);
    KeyIsOfName(name);
  }

  lemma {:induction false} TextSnoc(kvs: seq<TextCodec.KeyValue>, kv: TextCodec.KeyValue)
    ensures TextOf(kvs + [kv]) == TextOf(kvs) + [Pair(KeyOf(Chars(kv.key)), Chars(kv.value))]
    decreases |kvs|
  {
    if kvs == [] {
      assert kvs + [kv] == [kv] && [kv][1..] == [];
    } else {
      assert (kvs + [kv])[1..] == kvs[1..] + [kv];
      TextSnoc(kvs[1..], kv);
    }
  }

  lemma {:induction false} TextSays(kvs: seq<TextCodec.KeyValue>, key: Key)
    ensures LastValue(TextOf(kvs), key) == Offered(kvs, NameOf(key))
    ensures Count(TextOf(kvs), key) == Times(kvs, NameOf(key))
    ensures Said(kvs, NameOf(key)).Some? <==> Times(kvs, NameOf(key)) > 0
    decreases |kvs|
  {
    if kvs != [] {
      var front, kv := kvs[..|kvs| - 1], kvs[|kvs| - 1];
      assert kvs == front + [kv];
      TextSays(front, key);
      TextSnoc(front, kv);
      KeyHasName(Chars(kv.key), key);
      LastOfText(TextOf(front), Pair(KeyOf(Chars(kv.key)), Chars(kv.value)), key);
    }
  }

  lemma LastOfText(kvs: seq<Pair>, kv: Pair, key: Key)
    ensures LastValue(kvs + [kv], key) == if kv.key == Some(key) then kv.value else LastValue(kvs, key)
    ensures Count(kvs + [kv], key) == Count(kvs, key) + if kv.key == Some(key) then 1 else 0
  {
    assert (kvs + [kv])[..|kvs|] == kvs;
  }

  // ---- One parameter ----------------------------------------------------------------------------

  datatype Value = Flag(set_: bool) | Number(n: u32)

  function FieldOf(p: Params, key: Key): Value {
    match key
    case HeaderDigest => Flag(p.headerDigest)
    case DataDigest => Flag(p.dataDigest)
    case MaxConnections => Number(p.maxConnections)
    case InitialR2T => Flag(p.initialR2T)
    case ImmediateData => Flag(p.immediateData)
    case MaxRecvDataSegmentLength => Number(p.maxRecvDataSegmentLength)
    case MaxBurstLength => Number(p.maxBurstLength)
    case FirstBurstLength => Number(p.firstBurstLength)
    case DefaultTime2Wait => Number(p.defaultTime2Wait)
    case DefaultTime2Retain => Number(p.defaultTime2Retain)
    case MaxOutstandingR2T => Number(p.maxOutstandingR2T)
    case DataPDUInOrder => Flag(p.dataPDUInOrder)
    case DataSequenceInOrder => Flag(p.dataSequenceInOrder)
    case ErrorRecoveryLevel => Number(p.errorRecoveryLevel)
  }

  function Meant(key: Key, text: string): Value {
    if key.HeaderDigest? || key.DataDigest? then Flag(text == "CRC32C")
    else if key.InitialR2T? || key.ImmediateData? || key.DataPDUInOrder? || key.DataSequenceInOrder? then
      Flag(text == "Yes")
    else Number(ParseUint32(text))
  }

  lemma SetKeySets(p: Params, key: Key, text: string, other: Key)
    ensures FieldOf(SetKey(p, key, text), other) == if other == key then Meant(key, text) else FieldOf(p, other)
  {
  }

  lemma {:induction false} KeysSet(p: Params, keys: seq<Pair>, key: Key)
    ensures FieldOf(ApplyKeys(p, keys), key)
            == if Count(keys, key) == 0 then FieldOf(p, key) else Meant(key, LastValue(keys, key))
    decreases |keys|
  {
    if keys != [] {
      var front, kv := keys[..|keys| - 1], keys[|keys| - 1];
      KeysSet(p, front, key);
      if kv.key.Some? {
        SetKeySets(ApplyKeys(p, front), kv.key.value, kv.value, key);
      }
    }
  }

  /** What resolution makes of a key's occurrences: as many, and the last one resolved with the proposal. */
  ghost predicate Resolved(proposed: seq<Pair>, answer: seq<Pair>, resolved: seq<Pair>, key: Key) {
    && Count(resolved, key) == Count(answer, key)
    && (Count(answer, key) > 0 ==>
          Resolve(DefOf(key), LastValue(proposed, key), LastValue(answer, key)) == Some(LastValue(resolved, key)))
  }

  lemma {:induction false} AllResolved(proposed: seq<Pair>, answer: seq<Pair>, key: Key)
    requires ResolveAll(proposed, answer).Some?
    ensures Resolved(proposed, answer, ResolveAll(proposed, answer).value, key)
    decreases |answer|
  {
    if answer != [] {
      var front, kv := answer[..|answer| - 1], answer[|answer| - 1];
      assert answer == front + [kv];
      AllResolved(proposed, front, key);
      LastOfText(front, kv, key);
      if kv.key.Some? {
        var before := ResolveAll(proposed, front).value;
        var r := Resolve(DefOf(kv.key.value), LastValue(proposed, kv.key.value), kv.value).value;
        LastOfText(before, Pair(kv.key, r), key);
      }
    }
  }

  lemma {:induction false} DeclareLeavesOthers(resolved: seq<Pair>, value: string, key: Key)
    requires key != MRDSL
    ensures Count(Declare(resolved, value), key) == Count(resolved, key)
    ensures LastValue(Declare(resolved, value), key) == LastValue(resolved, key)
    decreases |resolved|
  {
    if resolved != [] {
      var kv, rest := resolved[0], resolved[1..];
      assert resolved == [kv] + rest;
      FrontOf(kv, rest, key);
      if kv.key == Some(MRDSL) {
        FrontOf(kv.(value := value), rest, key);
      } else {
        DeclareLeavesOthers(rest, value, key);
        FrontOf(kv, Declare(rest, value), key);
      }
    }
  }

  /** Before FirstBurstLength is capped. */
  function Uncapped(proposed: seq<Pair>, answer: seq<Pair>): Params
    requires ResolveAll(proposed, answer).Some?
  {
    ApplyKeys(DEFAULTS, Declare(ResolveAll(proposed, answer).value, LastValue(answer, MRDSL)))
  }

  lemma FieldIsResolved(proposed: seq<Pair>, answer: seq<Pair>, key: Key)
    requires ResolveAll(proposed, answer).Some? && key != MRDSL
    ensures Count(answer, key) == 0 ==> FieldOf(Uncapped(proposed, answer), key) == FieldOf(DEFAULTS, key)
    ensures Count(answer, key) > 0 ==>
      var r := Resolve(DefOf(key), LastValue(proposed, key), LastValue(answer, key));
      r.Some? && FieldOf(Uncapped(proposed, answer), key) == Meant(key, r.value)
  {
    var resolved, value := ResolveAll(proposed, answer).value, LastValue(answer, MRDSL);
    AllResolved(proposed, answer, key);
    DeclareLeavesOthers(resolved, value, key);
    KeysSet(DEFAULTS, Declare(resolved, value), key);
  }

  lemma FieldIsSaid(proposed: seq<TextCodec.KeyValue>, answer: seq<TextCodec.KeyValue>, key: Key)
    requires ResolveAll(TextOf(proposed), TextOf(answer)).Some? && key != MRDSL
    ensures var p, said := Uncapped(TextOf(proposed), TextOf(answer)), Said(answer, NameOf(key));
      if said.None? then FieldOf(p, key) == FieldOf(DEFAULTS, key)
      else
        var r := Resolve(DefOf(key), Offered(proposed, NameOf(key)), said.value);
        r.Some? && FieldOf(p, key) == Meant(key, r.value)
  {
    TextSays(proposed, key);
    TextSays(answer, key);
    FieldIsResolved(TextOf(proposed), TextOf(answer), key);
  }

  // ---- All parameters ---------------------------------------------------------------------------

  /** Yes if either side says so, or if the target does not answer. */
  predicate EitherSays(offered: string, said: Option<string>) {
    said.None? || said.value == "Yes" || offered == "Yes"
  }

  /** The four flags, from the texts. */
  lemma FlagsAreNegotiated(proposed: seq<TextCodec.KeyValue>, answer: seq<TextCodec.KeyValue>)
    requires Negotiated(TextOf(proposed), TextOf(answer)).Some?
    ensures var p := Negotiated(TextOf(proposed), TextOf(answer)).value;
      && p.initialR2T == EitherSays(Offered(proposed, "InitialR2T"), Said(answer, "InitialR2T"))
      && p.dataPDUInOrder == EitherSays(Offered(proposed, "DataPDUInOrder"), Said(answer, "DataPDUInOrder"))
      && p.dataSequenceInOrder
         == EitherSays(Offered(proposed, "DataSequenceInOrder"), Said(answer, "DataSequenceInOrder"))
      && p.immediateData
         == (Said(answer, "ImmediateData").None?
             || (Said(answer, "ImmediateData") == Some("Yes") && Offered(proposed, "ImmediateData") == "Yes"))
  {
    var u := BeforeCap(proposed, answer);
    OrsAreNegotiated(u, proposed, answer);
    AndIsNegotiated(u, proposed, answer);
  }

  lemma OrsAreNegotiated(u: Params, proposed: seq<TextCodec.KeyValue>, answer: seq<TextCodec.KeyValue>)
    requires ResolveAll(TextOf(proposed), TextOf(answer)).Some? && u == Uncapped(TextOf(proposed), TextOf(answer))
    ensures u.initialR2T == EitherSays(Offered(proposed, "InitialR2T"), Said(answer, "InitialR2T"))
    ensures u.dataPDUInOrder == EitherSays(Offered(proposed, "DataPDUInOrder"), Said(answer, "DataPDUInOrder"))
    ensures u.dataSequenceInOrder
            == EitherSays(Offered(proposed, "DataSequenceInOrder"), Said(answer, "DataSequenceInOrder"))
  {
    OrIsNegotiated(u, proposed, answer, InitialR2T, "InitialR2T", u.initialR2T);
    OrIsNegotiated(u, proposed, answer, DataPDUInOrder, "DataPDUInOrder", u.dataPDUInOrder);
    OrIsNegotiated(u, proposed, answer, DataSequenceInOrder, "DataSequenceInOrder", u.dataSequenceInOrder);
  }

  lemma BeforeCap(proposed: seq<TextCodec.KeyValue>, answer: seq<TextCodec.KeyValue>) returns (u: Params)
    requires Negotiated(TextOf(proposed), TextOf(answer)).Some?
    ensures ResolveAll(TextOf(proposed), TextOf(answer)).Some? && u == Uncapped(TextOf(proposed), TextOf(answer))
    ensures Negotiated(TextOf(proposed), TextOf(answer)) == Some(CapFirstBurst(u))
  {
    u := Uncapped(TextOf(proposed), TextOf(answer));
  }

  lemma OrIsNegotiated(u: Params, proposed: seq<TextCodec.KeyValue>, answer: seq<TextCodec.KeyValue>, key: Key,
                       name: string, b: bool)
    requires ResolveAll(TextOf(proposed), TextOf(answer)).Some? && u == Uncapped(TextOf(proposed), TextOf(answer))
    requires key.InitialR2T? || key.DataPDUInOrder? || key.DataSequenceInOrder?
    requires NameOf(key) == name && FieldOf(u, key) == Flag(b)
    ensures b == EitherSays(Offered(proposed, name), Said(answer, name))
  {
    FieldIsSaid(proposed, answer, key);
  }

  lemma AndIsNegotiated(u: Params, proposed: seq<TextCodec.KeyValue>, answer: seq<TextCodec.KeyValue>)
    requires ResolveAll(TextOf(proposed), TextOf(answer)).Some? && u == Uncapped(TextOf(proposed), TextOf(answer))
    ensures u.immediateData
            == (Said(answer, "ImmediateData").None?
                || (Said(answer, "ImmediateData") == Some("Yes") && Offered(proposed, "ImmediateData") == "Yes"))
  {
    FieldIsSaid(proposed, answer, ImmediateData);
  }

  /** The smaller of two numbers, or the nearest bound if that is out of range; the default without an answer. */
  predicate Agreed(v: u32, offered: string, said: Option<string>, lo: u32, hi: u32, default_: u32) {
    if said.None? then v == default_
    else
      && ParseUint(offered).Some? && ParseUint(said.value).Some?
      && v == Max(lo, Min(hi, Min(ParseUint(offered).value, ParseUint(said.value).value)))
  }

  lemma MinimumIsNegotiated(u: Params, proposed: seq<TextCodec.KeyValue>, answer: seq<TextCodec.KeyValue>, key: Key,
                            name: string, lo: u32, hi: u32, default_: u32, v: u32)
    requires ResolveAll(TextOf(proposed), TextOf(answer)).Some? && u == Uncapped(TextOf(proposed), TextOf(answer))
    requires DefOf(key) == KeyDef(NumericalMin, lo, hi) && 0 < hi && FieldOf(DEFAULTS, key) == Number(default_)
    requires NameOf(key) == name && FieldOf(u, key) == Number(v)
    ensures Agreed(v, Offered(proposed, name), Said(answer, name), lo, hi, default_)
  {
    var offered, said := Offered(proposed, name), Said(answer, name);
    FieldIsSaid(proposed, answer, key);
    if said.Some? {
      MinimumIsParsed(DefOf(key), offered, said.value);
    }
  }

  lemma MinimumIsParsed(def: KeyDef, offered: string, said: string)
    requires def.kind == NumericalMin && 0 < def.max && def.min <= def.max && Resolve(def, offered, said).Some?
    ensures ParseUint(offered).Some? && ParseUint(said).Some?
    ensures ParseUint32(Resolve(def, offered, said).value)
            == Max(def.min, Min(def.max, Min(ParseUint(offered).value, ParseUint(said).value)))
  {
    ParseInvertsFormat(Clamp(Min(ParseUint(offered).value, ParseUint(said).value), def));
  }

  /** The burst lengths, from the texts, in the bounds and with the defaults of sections 13.13 and 13.14. */
  lemma LengthsAreNegotiated(proposed: seq<TextCodec.KeyValue>, answer: seq<TextCodec.KeyValue>)
    returns (firstBurst: u32)
    requires Negotiated(TextOf(proposed), TextOf(answer)).Some?
    ensures var p := Negotiated(TextOf(proposed), TextOf(answer)).value;
      && Agreed(p.maxBurstLength, Offered(proposed, "MaxBurstLength"), Said(answer, "MaxBurstLength"),
                512, 16777215, 262144)
      && Agreed(firstBurst, Offered(proposed, "FirstBurstLength"), Said(answer, "FirstBurstLength"),
                512, 16777215, 65536)
      && p.firstBurstLength == Min(firstBurst, p.maxBurstLength)
  {
    var u := BeforeCap(proposed, answer);
    firstBurst := u.firstBurstLength;
    MinimumIsNegotiated(u, proposed, answer, MaxBurstLength, "MaxBurstLength", 512, 16777215, 262144,
                        u.maxBurstLength);
    MinimumIsNegotiated(u, proposed, answer, FirstBurstLength, "FirstBurstLength", 512, 16777215, 65536, firstBurst);
  }

  /** The two times. */
  lemma TimesAreNegotiated(proposed: seq<TextCodec.KeyValue>, answer: seq<TextCodec.KeyValue>)
    requires Negotiated(TextOf(proposed), TextOf(answer)).Some?
    ensures var p := Negotiated(TextOf(proposed), TextOf(answer)).value;
      && Agreed(p.defaultTime2Wait, Offered(proposed, "DefaultTime2Wait"), Said(answer, "DefaultTime2Wait"), 0, 3600, 2)
      && Agreed(p.defaultTime2Retain, Offered(proposed, "DefaultTime2Retain"), Said(answer, "DefaultTime2Retain"),
                0, 3600, 20)
  {
    var u := BeforeCap(proposed, answer);
    MinimumIsNegotiated(u, proposed, answer, DefaultTime2Wait, "DefaultTime2Wait", 0, 3600, 2, u.defaultTime2Wait);
    MinimumIsNegotiated(u, proposed, answer, DefaultTime2Retain, "DefaultTime2Retain", 0, 3600, 20,
                        u.defaultTime2Retain);
  }

  /** And the numbers that count something. */
  lemma CountsAreNegotiated(proposed: seq<TextCodec.KeyValue>, answer: seq<TextCodec.KeyValue>)
    requires Negotiated(TextOf(proposed), TextOf(answer)).Some?
    ensures var p := Negotiated(TextOf(proposed), TextOf(answer)).value;
      && Agreed(p.maxConnections, Offered(proposed, "MaxConnections"), Said(answer, "MaxConnections"), 1, 65535, 1)
      && Agreed(p.maxOutstandingR2T, Offered(proposed, "MaxOutstandingR2T"), Said(answer, "MaxOutstandingR2T"),
                1, 65535, 1)
      && Agreed(p.errorRecoveryLevel, Offered(proposed, "ErrorRecoveryLevel"), Said(answer, "ErrorRecoveryLevel"),
                0, 2, 0)
  {
    var u := BeforeCap(proposed, answer);
    ConnectionsAreNegotiated(u, proposed, answer);
    MinimumIsNegotiated(u, proposed, answer, ErrorRecoveryLevel, "ErrorRecoveryLevel", 0, 2, 0,
                        u.errorRecoveryLevel);
  }

  lemma ConnectionsAreNegotiated(u: Params, proposed: seq<TextCodec.KeyValue>, answer: seq<TextCodec.KeyValue>)
    requires ResolveAll(TextOf(proposed), TextOf(answer)).Some? && u == Uncapped(TextOf(proposed), TextOf(answer))
    ensures Agreed(u.maxConnections, Offered(proposed, "MaxConnections"), Said(answer, "MaxConnections"), 1, 65535, 1)
    ensures Agreed(u.maxOutstandingR2T, Offered(proposed, "MaxOutstandingR2T"), Said(answer, "MaxOutstandingR2T"),
                   1, 65535, 1)
  {
    MinimumIsNegotiated(u, proposed, answer, MaxConnections, "MaxConnections", 1, 65535, 1, u.maxConnections);
    MinimumIsNegotiated(u, proposed, answer, MaxOutstandingR2T, "MaxOutstandingR2T", 1, 65535, 1,
                        u.maxOutstandingR2T);
  }

  /** MaxRecvDataSegmentLength is what the target declares, unclamped if it does so once. */
  lemma SegmentLengthIsDeclared(proposed: seq<TextCodec.KeyValue>, answer: seq<TextCodec.KeyValue>)
    requires Negotiated(TextOf(proposed), TextOf(answer)).Some?
    ensures var v := Negotiated(TextOf(proposed), TextOf(answer)).value.maxRecvDataSegmentLength;
      var said := Said(answer, "MaxRecvDataSegmentLength");
      if said.None? then v == 8192
      else
        && ParseUint(said.value).Some?
        && v == if Times(answer, "MaxRecvDataSegmentLength") == 1 then ParseUint(said.value).value
                else Max(512, Min(16777215, ParseUint(said.value).value))
  {
    var u := BeforeCap(proposed, answer);
    TextSays(answer, MRDSL);
    DeclaredLength(TextOf(proposed), TextOf(answer), u.maxRecvDataSegmentLength);
  }

  lemma DeclaredLength(proposed: seq<Pair>, answer: seq<Pair>, v: u32)
    requires ResolveAll(proposed, answer).Some? && v == Uncapped(proposed, answer).maxRecvDataSegmentLength
    ensures var said := ParseUint(LastValue(answer, MRDSL));
      if Count(answer, MRDSL) == 0 then v == 8192
      else said.Some? && v == if Count(answer, MRDSL) == 1 then said.value else Max(512, Min(16777215, said.value))
  {
    var resolved, value := ResolveAll(proposed, answer).value, LastValue(answer, MRDSL);
    AllResolved(proposed, answer, MRDSL);
    DeclareChangesFirst(resolved, value);
    KeysSet(DEFAULTS, Declare(resolved, value), MRDSL);
    if Count(answer, MRDSL) > 0 {
      DeclarationIsParsed(LastValue(proposed, MRDSL), value);
    }
  }

  lemma DeclarationIsParsed(offered: string, said: string)
    requires Resolve(DefOf(MRDSL), offered, said).Some?
    ensures ParseUint(said).Some?
    ensures ParseUint32(Resolve(DefOf(MRDSL), offered, said).value) == Max(512, Min(16777215, ParseUint(said).value))
  {
    ParseInvertsFormat(Clamp(ParseUint(said).value, MRDSL_DEF));
  }

  // ---- Digests ----------------------------------------------------------------------------------

  predicate IsOffered(item: string, offered: string) {
    exists i | 0 <= i < |Items(offered)| :: TrimSpace(Items(offered)[i]) == item
  }

  /** The item is the first in the target's list that the initiator has offered. */
  predicate FirstOffered(item: string, said: string, offered: string) {
    exists k | 0 <= k < |Items(said)| ::
      && TrimSpace(Items(said)[k]) == item && IsOffered(item, offered)
      && forall j | 0 <= j < k :: !IsOffered(TrimSpace(Items(said)[j]), offered)
  }

  lemma {:induction false} TrimmedAt(items: seq<string>, i: nat)
    requires i < |items|
    ensures |Trimmed(items)| == |items| && Trimmed(items)[i] == TrimSpace(items[i])
    decreases |items|
  {
    if |items| > 1 {
      TrimmedAt(items[1..], if i > 0 then i - 1 else 0);
    }
  }

  lemma OfferedIsTrimmed(item: string, offered: string)
    ensures item in Trimmed(Items(offered)) <==> IsOffered(item, offered)
  {
    forall i | 0 <= i < |Items(offered)|
      ensures |Trimmed(Items(offered))| == |Items(offered)|
      ensures Trimmed(Items(offered))[i] == TrimSpace(Items(offered)[i])
    {
      TrimmedAt(Items(offered), i);
    }
  }

  lemma {:induction false} SelectsFirst(chosen: seq<string>, offered: string)
    ensures var r := Select(chosen, Items(offered));
      && (r.None? ==> forall j | 0 <= j < |chosen| :: !IsOffered(TrimSpace(chosen[j]), offered))
      && (r.Some? ==> exists k | 0 <= k < |chosen| ::
            && TrimSpace(chosen[k]) == r.value && IsOffered(r.value, offered)
            && forall j | 0 <= j < k :: !IsOffered(TrimSpace(chosen[j]), offered))
    decreases |chosen|
  {
    if chosen != [] {
      OfferedIsTrimmed(TrimSpace(chosen[0]), offered);
      SelectsFirst(chosen[1..], offered);
      if Select(chosen[1..], Items(offered)).Some? && !IsOffered(TrimSpace(chosen[0]), offered) {
        var r := Select(chosen[1..], Items(offered)).value;
        var k :| 0 <= k < |chosen[1..]| && TrimSpace(chosen[1..][k]) == r && IsOffered(r, offered)
          && forall j | 0 <= j < k :: !IsOffered(TrimSpace(chosen[1..][j]), offered);
        assert TrimSpace(chosen[k + 1]) == r;
        assert forall j | 0 < j < k + 1 :: chosen[j] == chosen[1..][j - 1];
      }
    }
  }

  lemma FirstOfferedIsOne(item: string, other: string, said: string, offered: string)
    requires FirstOffered(item, said, offered) && FirstOffered(other, said, offered)
    ensures item == other
  {
  }

  /** A digest is on exactly if the first item of the answer that was offered is CRC32C. */
  lemma DigestsAreNegotiated(proposed: seq<TextCodec.KeyValue>, answer: seq<TextCodec.KeyValue>)
    requires Negotiated(TextOf(proposed), TextOf(answer)).Some?
    ensures var p := Negotiated(TextOf(proposed), TextOf(answer)).value;
      && (p.headerDigest <==>
            && Said(answer, "HeaderDigest").Some?
            && FirstOffered("CRC32C", Said(answer, "HeaderDigest").value, Offered(proposed, "HeaderDigest")))
      && (p.dataDigest <==>
            && Said(answer, "DataDigest").Some?
            && FirstOffered("CRC32C", Said(answer, "DataDigest").value, Offered(proposed, "DataDigest")))
  {
    var u := BeforeCap(proposed, answer);
    DigestIsNegotiated(u, proposed, answer, HeaderDigest, "HeaderDigest", u.headerDigest);
    DigestIsNegotiated(u, proposed, answer, DataDigest, "DataDigest", u.dataDigest);
  }

  lemma DigestIsNegotiated(u: Params, proposed: seq<TextCodec.KeyValue>, answer: seq<TextCodec.KeyValue>, key: Key,
                           name: string, b: bool)
    requires ResolveAll(TextOf(proposed), TextOf(answer)).Some? && u == Uncapped(TextOf(proposed), TextOf(answer))
    requires (key.HeaderDigest? || key.DataDigest?) && NameOf(key) == name && FieldOf(u, key) == Flag(b)
    ensures b <==> Said(answer, name).Some?
                   && FirstOffered("CRC32C", Said(answer, name).value, Offered(proposed, name))
  {
    var offered, said := Offered(proposed, name), Said(answer, name);
    FieldIsSaid(proposed, answer, key);
    if said.Some? {
      SelectsFirst(Items(said.value), offered);
      var r := Select(Items(said.value), Items(offered)).value;
      assert FirstOffered(r, said.value, offered);
      if FirstOffered("CRC32C", said.value, offered) {
        FirstOfferedIsOne("CRC32C", r, said.value, offered);
      }
    }
  }

  // ---- Lists ------------------------------------------------------------------------------------

  function Joined(items: seq<string>): string
    requires items != []
  {
    if |items| == 1 then items[0] else items[0] + "," + Joined(items[1..])
  }

  /** The items of a text are what its commas separate. */
  lemma {:induction false} ItemsAreSeparated(s: string)
    ensures Joined(Items(s)) == s
    ensures forall i | 0 <= i < |Items(s)| :: ',' !in Items(s)[i]
    decreases |s|
  {
    if s != [] {
      var rest := Items(s[1..]);
      ItemsAreSeparated(s[1..]);
      if s[0] == ',' {
        assert ([[]] + rest)[1..] == rest;
        assert [] + "," + Joined(rest) == s;
      } else {
        var items := [[s[0]] + rest[0]] + rest[1..];
        assert items[1..] == rest[1..];
        assert s == [s[0]] + s[1..];
        if |rest| > 1 {
          assert [s[0]] + rest[0] + "," + Joined(rest[1..]) == [s[0]] + Joined(rest);
        }
      }
    }
  }

  /** Trimming takes white space off both ends, and nothing else. */
  lemma {:induction false} TrimsSpace(s: string) returns (front: string, back: string)
    ensures s == front + TrimSpace(s) + back
    ensures (forall c | c in front :: IsSpace(c)) && (forall c | c in back :: IsSpace(c))
    ensures var t := TrimSpace(s); t == [] || (!IsSpace(t[0]) && !IsSpace(t[|t| - 1]))
    decreases |s|
  {
    front, back := [], [];
    if s != [] && IsSpace(s[0]) {
      front, back := TrimsSpace(s[1..]);
      assert s == [s[0]] + s[1..];
      front := [s[0]] + front;
    } else if s != [] && IsSpace(s[|s| - 1]) {
      front, back := TrimsSpace(s[..|s| - 1]);
      assert s == s[..|s| - 1] + [s[|s| - 1]];
      back := back + [s[|s| - 1]];
    }
  }

  // ---- What is accepted -------------------------------------------------------------------------

  /** An answer to a key that the registry knows can be resolved. */
  predicate CanBeResolved(name: string, offered: string, said: string) {
    if name == "HeaderDigest" || name == "DataDigest" then
      exists k | 0 <= k < |Items(said)| :: IsOffered(TrimSpace(Items(said)[k]), offered)
    else if name == "MaxRecvDataSegmentLength" then ParseUint(said).Some?
    else if name in ["MaxConnections", "MaxBurstLength", "FirstBurstLength", "DefaultTime2Wait", "DefaultTime2Retain",
                     "MaxOutstandingR2T", "ErrorRecoveryLevel"] then
      ParseUint(offered).Some? && ParseUint(said).Some?
    else true
  }

  lemma ResolvesIff(key: Key, offered: string, said: string)
    ensures Resolve(DefOf(key), offered, said).Some? <==> CanBeResolved(NameOf(key), offered, said)
  {
    if key.HeaderDigest? || key.DataDigest? {
      SelectsFirst(Items(said), offered);
    }
  }

  lemma OneMoreAnswer(proposed: seq<Pair>, texts: seq<Pair>, pair: Pair)
    ensures ResolveAll(proposed, texts + [pair]).Some?
      <==> ResolveAll(proposed, texts).Some?
           && (pair.key.Some? ==>
                 Resolve(DefOf(pair.key.value), LastValue(proposed, pair.key.value), pair.value).Some?)
  {
    assert (texts + [pair])[..|texts|] == texts;
  }

  /** The text of an answer can be resolved, whether or not the registry knows its key. */
  lemma TextResolvesIff(proposed: seq<TextCodec.KeyValue>, name: string, said: string)
    ensures (KeyOf(name).Some? ==>
               Resolve(DefOf(KeyOf(name).value), LastValue(TextOf(proposed), KeyOf(name).value), said).Some?)
      <==> CanBeResolved(name, Offered(proposed, name), said)
  {
    if KeyOf(name).Some? {
      KeyHasName(name, KeyOf(name).value);
      TextSays(proposed, KeyOf(name).value);
      ResolvesIff(KeyOf(name).value, Offered(proposed, name), said);
    }
  }

  /** A login is accepted exactly if each answer can be resolved with what was proposed last. */
  lemma {:induction false} AcceptedIff(proposed: seq<TextCodec.KeyValue>, answer: seq<TextCodec.KeyValue>)
    ensures Negotiated(TextOf(proposed), TextOf(answer)).Some?
      <==> forall i | 0 <= i < |answer| ::
             CanBeResolved(Chars(answer[i].key), Offered(proposed, Chars(answer[i].key)), Chars(answer[i].value))
    decreases |answer|
  {
    if answer != [] {
      var n := |answer| - 1;
      var name, said := Chars(answer[n].key), Chars(answer[n].value);
      assert answer == answer[..n] + [answer[n]];
      AcceptedIff(proposed, answer[..n]);
      TextSnoc(answer[..n], answer[n]);
      OneMoreAnswer(TextOf(proposed), TextOf(answer[..n]), Pair(KeyOf(name), said));
      TextResolvesIff(proposed, name, said);
      assert forall i | 0 <= i < n :: answer[..n][i] == answer[i];
    }
  }
}
