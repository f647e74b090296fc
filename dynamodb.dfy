/** DynamoDB key scheme (ts/lib/dynamodb.ts): labelled key parts joined into partition and sort
    keys, and the opaque text form of an item's key handed out to callers. */
module DynamoDb {
  import opened Wrappers
  import opened Strings
  import JsonText
  import Utf8
  import Base64

  datatype KeyLabel = EventId | EventPartition | SourceServiceName | SourceDeviceId | Timestamp | UserId

  function LabelText(l: KeyLabel): (r: string)
    ensures |r| == 3 && Free(r, ':') && Free(r, '#')
  {
    match l
    case EventId => "EID"
    case EventPartition => "EVT"
    case SourceServiceName => "SVC"
    case SourceDeviceId => "DVC"
    case Timestamp => "TST"
    case UserId => "USR"
  }

  /** The six labels are pairwise distinct. */
  lemma LabelTextInjective(l1: KeyLabel, l2: KeyLabel)
    ensures LabelText(l1) == LabelText(l2) ==> l1 == l2
  {
  }

  function Segment(t: (KeyLabel, string)): (r: string)
    ensures |r| == 4 + |t.1| && r[..3] == LabelText(t.0) && r[3] == ':' && r[4..] == t.1
  {
    LabelText(t.0) + ":" + t.1
  }

  /** `generateKey(...tuples)`: each tuple as `label:value`, joined with `#`, in order. */
  function GenerateKey(tuples: seq<(KeyLabel, string)>): string {
    if tuples == [] then ""
    else if |tuples| == 1 then Segment(tuples[0])
    else Segment(tuples[0]) + "#" + GenerateKey(tuples[1..])
  }

  lemma TwoTuples(l1: KeyLabel, v1: string, l2: KeyLabel, v2: string)
    ensures GenerateKey([(l1, v1), (l2, v2)]) == LabelText(l1) + ":" + v1 + "#" + LabelText(l2) + ":" + v2
  {
    assert [(l1, v1), (l2, v2)][1..] == [(l2, v2)];
  }

  predicate ValuesFree(tuples: seq<(KeyLabel, string)>, c: char) {
    forall i :: 0 <= i < |tuples| ==> Free(tuples[i].1, c)
  }

  lemma SegmentInjective(t1: (KeyLabel, string), t2: (KeyLabel, string))
    requires Segment(t1) == Segment(t2)
    ensures t1 == t2
  {
    LabelTextInjective(t1.0, t2.0);
  }

  lemma SegmentFree(t: (KeyLabel, string))
    requires Free(t.1, '#')
    ensures Free(Segment(t), '#')
  {
    var s := Segment(t);
    forall i | 0 <= i < |s| ensures s[i] != '#' {
      if i < 3 { assert s[i] == LabelText(t.0)[i]; }
      else if i > 3 { assert s[i] == t.1[i - 4]; }
    }
  }

  /** What follows the first segment: nothing, or `#` and the key of the remaining tuples. */
  function RestAfterFirst(tuples: seq<(KeyLabel, string)>): string
    requires tuples != []
  {
    if |tuples| == 1 then "" else "#" + GenerateKey(tuples[1..])
  }

  lemma {:induction false} GenerateKeySplit(tuples: seq<(KeyLabel, string)>)
    requires tuples != [] && ValuesFree(tuples, '#')
    ensures GenerateKey(tuples) == Segment(tuples[0]) + RestAfterFirst(tuples)
    ensures Free(Segment(tuples[0]), '#')
    ensures ValuesFree(tuples[1..], '#')
  {
    SegmentFree(tuples[0]);
    forall i | 0 <= i < |tuples| - 1 ensures Free(tuples[1..][i].1, '#') {
      assert tuples[1..][i] == tuples[i + 1];
    }
  }

  /** Distinct tuple lists give distinct keys as long as no value contains `#`. Labels have a
      fixed width, so a `:` inside a value is harmless. */
  lemma {:induction false} GenerateKeyInjective(xs: seq<(KeyLabel, string)>, ys: seq<(KeyLabel, string)>)
    requires ValuesFree(xs, '#') && ValuesFree(ys, '#')
    requires GenerateKey(xs) == GenerateKey(ys)
    ensures xs == ys
  {
    if xs != [] && ys != [] {
      GenerateKeySplit(xs);
      GenerateKeySplit(ys);
      var r1, r2 := RestAfterFirst(xs), RestAfterFirst(ys);
      SplitUnique(Segment(xs[0]), r1, Segment(ys[0]), r2, '#');
      SegmentInjective(xs[0], ys[0]);
      if |xs| > 1 && |ys| > 1 {
        assert r1[1..] == GenerateKey(xs[1..]) && r2[1..] == GenerateKey(ys[1..]);
        GenerateKeyInjective(xs[1..], ys[1..]);
        assert xs == [xs[0]] + xs[1..] && ys == [ys[0]] + ys[1..];
      }
    }
  }

  /** Without that condition two different user-state sources share a sort key: service
      `a#DVC:b` with device `c`, and service `a` with device `b#DVC:c`. */
  lemma GenerateKeyCollision()
    ensures GenerateKey([(SourceServiceName, "a#DVC:b"), (SourceDeviceId, "c")])
         == GenerateKey([(SourceServiceName, "a"), (SourceDeviceId, "b#DVC:c")])
  {
    TwoTuples(SourceServiceName, "a#DVC:b", SourceDeviceId, "c");
    TwoTuples(SourceServiceName, "a", SourceDeviceId, "b#DVC:c");
  }

  /** The partition and sort key of an item. */
  datatype ItemKey = ItemKey(primaryKey: string, sortKey: string)

  const JsonHead := "{\"primaryKey\":"
  const JsonMiddle := ",\"sortKey\":"
  const JsonTail := "}"

  /** `JSON.stringify({ primaryKey, sortKey })`: only the two key fields, in that order. */
  function KeyJson(k: ItemKey): string {
    JsonHead + JsonText.QuoteString(k.primaryKey) + JsonMiddle + JsonText.QuoteString(k.sortKey) + JsonTail
  }

  /** `JSON.parse` of text in the form `KeyJson` writes; `None` where the source would throw
      (or, for JSON of another shape, would hand DynamoDB a malformed key). */
  function ParseKeyJson(s: string): Option<ItemKey> {
    if !StartsWith(s, JsonHead) then None
    else match JsonText.ParseString(s[|JsonHead|..])
      case None => None
      case Some((pk, r1)) =>
        if !StartsWith(r1, JsonMiddle) then None
        else match JsonText.ParseString(r1[|JsonMiddle|..])
          case None => None
          case Some((sk, r2)) => if r2 == JsonTail then Some(ItemKey(pk, sk)) else None
  }

  /** `ItemKey.encode`: the JSON text, as UTF-8, in standard base 64 (section 4 of RFC 4648). */
  function Encode(k: ItemKey): string {
    Base64.Encode(Base64.Standard, Utf8.Encode(KeyJson(k)))
  }

  /** `ItemKey.decode`. */
  function Decode(value: string): Option<ItemKey> {
    match Base64.Decode(Base64.Standard, value)
    case None => None
    case Some(bytes) =>
      match Utf8.Decode(bytes)
      case None => None
      case Some(json) => ParseKeyJson(json)
  }

  lemma ParseKeyJsonOf(k: ItemKey)
    ensures ParseKeyJson(KeyJson(k)) == Some(k)
  {
    var q1, q2 := JsonText.QuoteString(k.primaryKey), JsonText.QuoteString(k.sortKey);
    var r1 := JsonMiddle + (q2 + JsonTail);
    assert KeyJson(k) == JsonHead + (q1 + r1);
    PrefixOfConcat(JsonHead, q1 + r1);
    JsonText.ParseQuoteString(k.primaryKey, r1);
    PrefixOfConcat(JsonMiddle, q2 + JsonTail);
    JsonText.ParseQuoteString(k.sortKey, JsonTail);
  }

  /** Decoding an encoded key gives the key back. */
  lemma DecodeEncode(k: ItemKey)
    ensures Decode(Encode(k)) == Some(k)
  {
    Base64.DecodeEncode(Base64.Standard, Utf8.Encode(KeyJson(k)));
    Utf8.DecodeEncode(KeyJson(k));
    ParseKeyJsonOf(k);
  }

  /** Hence encoding is injective: distinct keys never share a text form. */
  lemma EncodeInjective(k1: ItemKey, k2: ItemKey)
    requires Encode(k1) == Encode(k2)
    ensures k1 == k2
  {
    DecodeEncode(k1);
    DecodeEncode(k2);
  }

  /** The text form is standard base 64: its alphabet (which includes `+` and `/`) and `=`. */
  lemma EncodeIsStandardBase64(k: ItemKey)
    ensures forall i :: 0 <= i < |Encode(k)| ==>
      Base64.InAlphabet(Base64.Standard, Encode(k)[i]) || Encode(k)[i] == Base64.Pad
  {
    Base64.EncodeCharacters(Base64.Standard, Utf8.Encode(KeyJson(k)));
  }

  /** A `get` on a table by the encoded item key: a key that does not decode makes `JSON.parse`
      throw; a decoded key with no item gives `undefined`. */
  function GetItem<T>(table: map<ItemKey, T>, key: string): (r: Result<Option<T>>)
    ensures r.Err? <==> Decode(key).None?
    ensures r.Ok? ==> (r.value.Some? <==> Decode(key).value in table)
    ensures r.Ok? && r.value.Some? ==> r.value.value == table[Decode(key).value]
  {
    match Decode(key)
    case None => Err("SyntaxError")
    case Some(k) => Ok(if k in table then Some(table[k]) else None)
  }
}
