/** Splitting of a parsed document into request-sized pieces
    (`chunk_json_by_size` in llm_call.py). The serialiser `json.dumps(...,
    indent=2)` is a parameter; the model fixes what is done with its output. */
module Chunking {
  import opened Base
  import opened Text
  import opened Json

  /** Python's `a // b`: the quotient rounded towards negative infinity. */
  function FloorDiv(a: int, b: int): (q: int)
    requires b != 0
    ensures b > 0 ==> b * q <= a < b * q + b
    ensures b < 0 ==> b * q >= a > b * q + b
  {
    if b > 0 || a % b == 0 then a / b else a / b - 1
  }

  /** Python's `s[:m]` for any integer `m`: a negative bound counts from the
      end, and both are clamped to the string. */
  function SliceUpTo(s: string, m: int): (r: string)
    ensures |r| <= |s| && r == s[..|r|]
    ensures m >= 0 ==> |r| == Min(m, |s|)
    ensures m < 0 ==> |r| == Max(|s| + m, 0)
  {
    if m >= 0 then s[..if m < |s| then m else |s|]
    else s[..if |s| + m > 0 then |s| + m else 0]
  }

  function Min(a: int, b: int): int { if a < b then a else b }

  function Max(a: int, b: int): int { if a < b then b else a }

  /** `[s[i:i + m] for i in range(start, len(s), m)]` for a positive `m`. */
  function CharPieces(s: string, m: nat, start: nat): seq<string>
    requires m > 0
    decreases |s| - start
  {
    if start >= |s| then [] else [s[start..Min(start + m, |s|)]] + CharPieces(s, m, start + m)
  }

  /** The pieces cover the rest of the string in order; each has between one
      and `m` characters, and all but the last have exactly `m`. */
  lemma {:induction false} CharPiecesProperties(s: string, m: nat, start: nat)
    requires m > 0 && start <= |s|
    ensures Flatten(CharPieces(s, m, start)) == s[start..]
    ensures forall j :: 0 <= j < |CharPieces(s, m, start)| ==> 0 < |CharPieces(s, m, start)[j]| <= m
    ensures forall j :: 0 <= j < |CharPieces(s, m, start)| - 1 ==> |CharPieces(s, m, start)[j]| == m
    decreases |s| - start
  {
    var ps := CharPieces(s, m, start);
    if start == |s| {
      assert ps == [];
    } else {
      var end := Min(start + m, |s|);
      var rest := CharPieces(s, m, end);
      if start + m < |s| {
        assert rest == CharPieces(s, m, start + m);
        CharPiecesProperties(s, m, start + m);
      } else {
        assert CharPieces(s, m, start + m) == [];
      }
      var tail := CharPieces(s, m, start + m);
      assert ps == [s[start..end]] + tail;
      FlattenCons(s[start..end], tail);
      assert s[start..] == s[start..end] + s[end..];
    }
  }

  /** The slices `(i, xs[i:i + k])` for `i` in `range(start, len(xs), k)`. */
  function Slices<T>(xs: seq<T>, k: nat, start: nat): seq<(nat, seq<T>)>
    requires k > 0
    decreases |xs| - start
  {
    if start >= |xs| then [] else [(start, xs[start..Min(start + k, |xs|)])] + Slices(xs, k, start + k)
  }

  function Contents<T>(sl: seq<(nat, seq<T>)>): seq<seq<T>>
  {
    seq(|sl|, j requires 0 <= j < |sl| => sl[j].1)
  }

  /** The first slice and the slices after it. */
  lemma SlicesUnfold<T>(xs: seq<T>, k: nat, start: nat)
    requires k > 0 && start < |xs|
    ensures var end := Min(start + k, |xs|);
      && Slices(xs, k, start) == [(start, xs[start..end])] + Slices(xs, k, start + k)
      && (start + k >= |xs| ==> Slices(xs, k, start + k) == [])
  {
  }

  /** The slices concatenate to the rest of the sequence. */
  lemma {:induction false} SlicesFlatten<T>(xs: seq<T>, k: nat, start: nat)
    requires k > 0 && start <= |xs|
    ensures Flatten(Contents(Slices(xs, k, start))) == xs[start..]
    decreases |xs| - start
  {
    if start < |xs| {
      var end := Min(start + k, |xs|);
      var tail := Slices(xs, k, start + k);
      SlicesUnfold(xs, k, start);
      assert Contents(Slices(xs, k, start)) == [xs[start..end]] + Contents(tail);
      FlattenCons(xs[start..end], Contents(tail));
      if start + k < |xs| {
        SlicesFlatten(xs, k, start + k);
      } else {
        assert Contents(tail) == [];
      }
      assert xs[start..] == xs[start..end] + xs[end..];
    }
  }

  /** Slice `j` starts at `start + j * k` and holds between one and `k`
      items. */
  lemma {:induction false} SlicesOffsets<T>(xs: seq<T>, k: nat, start: nat)
    requires k > 0 && start <= |xs|
    ensures forall j :: 0 <= j < |Slices(xs, k, start)| ==>
              Slices(xs, k, start)[j].0 == start + j * k && 0 < |Slices(xs, k, start)[j].1| <= k
    decreases |xs| - start
  {
    if start < |xs| {
      var sl := Slices(xs, k, start);
      var tail := Slices(xs, k, start + k);
      SlicesUnfold(xs, k, start);
      if start + k < |xs| {
        SlicesOffsets(xs, k, start + k);
      }
      forall j | 0 <= j < |sl|
        ensures sl[j].0 == start + j * k && 0 < |sl[j].1| <= k
      {
        if j > 0 {
          assert sl[j] == tail[j - 1];
          assert (j - 1) * k + k == j * k;
        }
      }
    }
  }

  /** Every slice but the last holds exactly `k` items. */
  lemma {:induction false} SlicesFull<T>(xs: seq<T>, k: nat, start: nat)
    requires k > 0 && start <= |xs|
    ensures forall j :: 0 <= j < |Slices(xs, k, start)| - 1 ==> |Slices(xs, k, start)[j].1| == k
    decreases |xs| - start
  {
    if start < |xs| {
      var sl := Slices(xs, k, start);
      var tail := Slices(xs, k, start + k);
      SlicesUnfold(xs, k, start);
      if start + k < |xs| {
        SlicesFull(xs, k, start + k);
        assert |sl[0].1| == k;
        forall j | 1 <= j < |sl| - 1 ensures |sl[j].1| == k {
          assert sl[j] == tail[j - 1];
        }
      }
    }
  }

  /** The slices cover the rest of the sequence in order; slice `j` starts
      at `start + j * k` and all but the last hold exactly `k` items. */
  lemma SlicesProperties<T>(xs: seq<T>, k: nat, start: nat)
    requires k > 0 && start <= |xs|
    ensures Flatten(Contents(Slices(xs, k, start))) == xs[start..]
    ensures forall j :: 0 <= j < |Slices(xs, k, start)| ==>
              Slices(xs, k, start)[j].0 == start + j * k && 0 < |Slices(xs, k, start)[j].1| <= k
    ensures forall j :: 0 <= j < |Slices(xs, k, start)| - 1 ==> |Slices(xs, k, start)[j].1| == k
  {
    SlicesFlatten(xs, k, start);
    SlicesOffsets(xs, k, start);
    SlicesFull(xs, k, start);
  }

  /** Decimal rendering of an integer, with a minus sign when negative. */
  function IntToString(n: int): string
  {
    if n >= 0 then NatToString(n) else "-" + NatToString(-n)
  }

  /** The `chunk_info` text of a chunk of `count` items starting at `start`
      out of `total`. */
  function ChunkInfo(start: nat, count: nat, total: nat): string
  {
    "items " + IntToString(start) + " to " + IntToString(start + count - 1) + " of " + IntToString(total)
  }

  /** `{'texts': items, 'metadata': origin, 'chunk_info': ...}` */
  function ChunkObject(start: nat, items: Json, count: nat, total: nat, origin: Json): Json
  {
    JObj([("texts", items), ("metadata", origin), ("chunk_info", JStr(ChunkInfo(start, count, total)))])
  }

  /** `max(5, len(texts) // num_chunks)`, where `num_chunks` is one more
      than the number of whole `max_chars` widths in the serialised text. */
  function ItemsPerChunk(count: nat, total: nat, maxChars: int): (r: Result<nat, PyError>)
    ensures r.Success? ==> r.value >= 5
    ensures maxChars > 0 ==> r.Success?
    ensures maxChars == 0 ==> r == Failure(ZeroDivisionError)
  {
    if maxChars == 0 then Failure(ZeroDivisionError)
    else
      var numChunks := FloorDiv(total, maxChars) + 1;
      if numChunks == 0 then Failure(ZeroDivisionError)
      else
        var per := FloorDiv(count, numChunks);
        Success(if per > 5 then per else 5)
  }

  /** The chunk objects for a `texts` array cut into groups of `k`. */
  function ArrayChunks(items: seq<Json>, k: nat, origin: Json): seq<Json>
    requires k > 0
  {
    var sl := Slices(items, k, 0);
    seq(|sl|, j requires 0 <= j < |sl| => ChunkObject(sl[j].0, JArr(sl[j].1), |sl[j].1|, |items|, origin))
  }

  /** The chunk objects for a `texts` string, which Python slices by
      character. */
  function StringChunks(s: string, k: nat, origin: Json): seq<Json>
    requires k > 0
  {
    var sl := Slices(s, k, 0);
    seq(|sl|, j requires 0 <= j < |sl| => ChunkObject(sl[j].0, JStr(sl[j].1), |sl[j].1|, |s|, origin))
  }

  /** `len(texts)`, which fails on numbers, booleans and `None`. */
  function PyLen(j: Json): Result<nat, PyError>
  {
    match j
    case JArr(a) => Success(|a|)
    case JStr(s) => Success(|s|)
    case JObj(m) => Success(|m|)
    case _ => Failure(TypeError)
  }

  function MapSerialize(objs: seq<Json>, serialize: Json -> string): (r: seq<string>)
    ensures |r| == |objs| && forall j :: 0 <= j < |objs| ==> r[j] == serialize(objs[j])
  {
    seq(|objs|, j requires 0 <= j < |objs| => serialize(objs[j]))
  }

  /** The document is a JSON object with a `texts` member. */
  predicate HasTexts(data: Json)
  {
    data.JObj? && HasKey(data.members, "texts")
  }

  function TextsOf(data: Json): Json
    requires HasTexts(data)
  {
    Lookup(data.members, "texts").value
  }

  /** `metadata.get('origin', {})`: the document's `origin` member, or an
      empty object. */
  function OriginOf(data: Json): Json
    requires data.JObj?
  {
    Lookup(data.members, "origin").GetOr(JObj([]))
  }

  /** `chunk_json_by_size(json_data, max_chars)`. */
  function ChunkJsonBySize(data: Json, maxChars: int, serialize: Json -> string): (r: Result<seq<string>, PyError>)
    ensures |serialize(data)| <= maxChars ==> r == Success([serialize(data)])
    ensures r.Success? ==> |serialize(data)| <= maxChars || HasTexts(data) || |r.value| > 0
    ensures maxChars == 0 && |serialize(data)| > 0 ==> r.Failure?
  {
    var s := serialize(data);
    var total := |s|;
    if total <= maxChars then Success([s])
    else if HasTexts(data) then
      var texts := TextsOf(data);
      match PyLen(texts)
      case Failure(e) => Failure(e)
      case Success(count) =>
        match ItemsPerChunk(count, total, maxChars)
        case Failure(e) => Failure(e)
        case Success(k) =>
          match texts
          case JArr(items) => Success(MapSerialize(ArrayChunks(items, k, OriginOf(data)), serialize))
          case JStr(str) => Success(MapSerialize(StringChunks(str, k, OriginOf(data)), serialize))
          case _ => if count == 0 then Success([]) else Failure(TypeError)
    else if maxChars == 0 then Failure(ValueError)
    else
      var pieces := if maxChars > 0 then CharPieces(s, maxChars, 0) else [];
      if |pieces| > 0 then Success(pieces) else Success([SliceUpTo(s, maxChars)])
  }

  // ---------------------------------------------------------------------
  // Reading a chunk object back.

  /** The `texts` array of a chunk object (empty when there is none). */
  function TextsItems(c: Json): seq<Json>
  {
    if c.JObj? then
      match Lookup(c.members, "texts")
      case Some(JArr(a)) => a
      case _ => []
    else []
  }

  /** The `chunk_info` text of a chunk object (empty when there is none). */
  function InfoText(c: Json): string
  {
    if c.JObj? then
      match Lookup(c.members, "chunk_info")
      case Some(JStr(t)) => t
      case _ => ""
    else ""
  }

  function AllTexts(cs: seq<Json>): seq<seq<Json>>
  {
    seq(|cs|, j requires 0 <= j < |cs| => TextsItems(cs[j]))
  }

  /** Facts about the chunk objects shared by the three lemmas below. */
  lemma ArrayChunksSlices(items: seq<Json>, k: nat, origin: Json)
    requires k > 0
    ensures var cs := ArrayChunks(items, k, origin);
      && |cs| == |Slices(items, k, 0)|
      && forall j :: 0 <= j < |cs| ==>
           TextsItems(cs[j]) == Slices(items, k, 0)[j].1
           && InfoText(cs[j]) == ChunkInfo(j * k, |Slices(items, k, 0)[j].1|, |items|)
  {
    var cs := ArrayChunks(items, k, origin);
    var sl := Slices(items, k, 0);
    SlicesProperties(items, k, 0);
    forall j | 0 <= j < |cs|
      ensures TextsItems(cs[j]) == sl[j].1
      ensures InfoText(cs[j]) == ChunkInfo(j * k, |sl[j].1|, |items|)
    {
      ChunkObjectReadBack(sl[j].0, sl[j].1, |items|, origin);
    }
  }

  /** The chunks of a `texts` array give the array back when their `texts`
      are concatenated, and there are none exactly when the array is empty. */
  lemma ArrayChunksReassemble(items: seq<Json>, k: nat, origin: Json)
    requires k > 0
    ensures Flatten(AllTexts(ArrayChunks(items, k, origin))) == items
    ensures |items| == 0 <==> ArrayChunks(items, k, origin) == []
  {
    var sl := Slices(items, k, 0);
    ArrayChunksSlices(items, k, origin);
    SlicesProperties(items, k, 0);
    assert AllTexts(ArrayChunks(items, k, origin)) == Contents(sl);
    assert items[0..] == items;
    if |items| > 0 {
      assert |sl| > 0;
    }
  }

  /** Every chunk but the last holds exactly `k` items, the last between one
      and `k`. */
  lemma ArrayChunkSizes(items: seq<Json>, k: nat, origin: Json)
    requires k > 0
    ensures var cs := ArrayChunks(items, k, origin);
      && (forall j :: 0 <= j < |cs| ==> 0 < |TextsItems(cs[j])| <= k)
      && (forall j :: 0 <= j < |cs| - 1 ==> |TextsItems(cs[j])| == k)
  {
    ArrayChunksSlices(items, k, origin);
    SlicesProperties(items, k, 0);
  }

  /** Chunk `j` with `n` items reads "items j*k to j*k+n-1 of N". */
  lemma ArrayChunkInfo(items: seq<Json>, k: nat, origin: Json)
    requires k > 0
    ensures var cs := ArrayChunks(items, k, origin);
      forall j :: 0 <= j < |cs| ==> InfoText(cs[j]) == ChunkInfo(j * k, |TextsItems(cs[j])|, |items|)
  {
    ArrayChunksSlices(items, k, origin);
  }

  lemma ChunkObjectReadBack(start: nat, a: seq<Json>, total: nat, origin: Json)
    ensures TextsItems(ChunkObject(start, JArr(a), |a|, total, origin)) == a
    ensures InfoText(ChunkObject(start, JArr(a), |a|, total, origin)) == ChunkInfo(start, |a|, total)
  {
    var m := ChunkObject(start, JArr(a), |a|, total, origin).members;
    assert Lookup(m, "texts") == Some(JArr(a));
    LookupThird("texts", "metadata", "chunk_info", JArr(a), origin, JStr(ChunkInfo(start, |a|, total)));
  }

  /** The `texts` string of a chunk object (empty when there is none). */
  function TextsString(c: Json): string
  {
    if c.JObj? then
      match Lookup(c.members, "texts")
      case Some(JStr(t)) => t
      case _ => ""
    else ""
  }

  lemma ChunkStringReadBack(start: nat, t: string, total: nat, origin: Json)
    ensures TextsString(ChunkObject(start, JStr(t), |t|, total, origin)) == t
    ensures InfoText(ChunkObject(start, JStr(t), |t|, total, origin)) == ChunkInfo(start, |t|, total)
  {
    var m := ChunkObject(start, JStr(t), |t|, total, origin).members;
    assert Lookup(m, "texts") == Some(JStr(t));
    LookupThird("texts", "metadata", "chunk_info", JStr(t), origin, JStr(ChunkInfo(start, |t|, total)));
  }

  function AllStrings(cs: seq<Json>): seq<string>
  {
    seq(|cs|, j requires 0 <= j < |cs| => TextsString(cs[j]))
  }

  /** Facts about the string chunk objects shared by the two lemmas below. */
  lemma StringChunksSlices(s: string, k: nat, origin: Json)
    requires k > 0
    ensures var cs := StringChunks(s, k, origin);
      && |cs| == |Slices(s, k, 0)|
      && forall j :: 0 <= j < |cs| ==>
           TextsString(cs[j]) == Slices(s, k, 0)[j].1
           && InfoText(cs[j]) == ChunkInfo(j * k, |Slices(s, k, 0)[j].1|, |s|)
  {
    var cs := StringChunks(s, k, origin);
    var sl := Slices(s, k, 0);
    SlicesProperties(s, k, 0);
    forall j | 0 <= j < |cs|
      ensures TextsString(cs[j]) == sl[j].1
      ensures InfoText(cs[j]) == ChunkInfo(j * k, |sl[j].1|, |s|)
    {
      ChunkStringReadBack(sl[j].0, sl[j].1, |s|, origin);
    }
  }

  /** The chunks of a `texts` string give the string back when their `texts`
      are concatenated, and there are none exactly when the string is empty. */
  lemma StringChunksReassemble(s: string, k: nat, origin: Json)
    requires k > 0
    ensures Flatten(AllStrings(StringChunks(s, k, origin))) == s
    ensures |s| == 0 <==> StringChunks(s, k, origin) == []
  {
    var sl := Slices(s, k, 0);
    StringChunksSlices(s, k, origin);
    SlicesProperties(s, k, 0);
    assert AllStrings(StringChunks(s, k, origin)) == Contents(sl);
    assert s[0..] == s;
    if |s| > 0 {
      assert |sl| > 0;
    }
  }

  /** Every string chunk holds between one and `k` characters, all but the
      last exactly `k`. */
  lemma StringChunkSizes(s: string, k: nat, origin: Json)
    requires k > 0
    ensures var cs := StringChunks(s, k, origin);
      && (forall j :: 0 <= j < |cs| ==> 0 < |TextsString(cs[j])| <= k)
      && (forall j :: 0 <= j < |cs| - 1 ==> |TextsString(cs[j])| == k)
  {
    StringChunksSlices(s, k, origin);
    SlicesProperties(s, k, 0);
  }

  /** String chunk `j` with `n` characters reads "items j*k to j*k+n-1 of N". */
  lemma StringChunkInfo(s: string, k: nat, origin: Json)
    requires k > 0
    ensures var cs := StringChunks(s, k, origin);
      forall j :: 0 <= j < |cs| ==> InfoText(cs[j]) == ChunkInfo(j * k, |TextsString(cs[j])|, |s|)
  {
    StringChunksSlices(s, k, origin);
  }

  /** The third of three members is found past the other two. */
  lemma LookupThird(a: string, b: string, c: string, x: Json, y: Json, z: Json)
    requires c != a && c != b
    ensures Lookup([(a, x), (b, y), (c, z)], c) == Some(z)
  {
    var m := [(a, x), (b, y), (c, z)];
    assert [(c, z)][0].0 == c;
    assert Lookup([(c, z)], c) == Some(z);
    assert [(b, y), (c, z)][1..] == [(c, z)];
    assert Lookup([(b, y), (c, z)], c) == Some(z);
    assert m[1..] == [(b, y), (c, z)];
  }

  /** Fallback path: the pieces concatenate to the serialised text, none is
      empty or longer than `max_chars`, and all but the last are full. */
  lemma FallbackReassembles(data: Json, maxChars: int, serialize: Json -> string)
    requires !HasTexts(data) && 0 < maxChars < |serialize(data)|
    ensures ChunkJsonBySize(data, maxChars, serialize).Success?
    ensures var ps := ChunkJsonBySize(data, maxChars, serialize).value;
      && Flatten(ps) == serialize(data)
      && (forall j :: 0 <= j < |ps| ==> 0 < |ps[j]| <= maxChars)
      && (forall j :: 0 <= j < |ps| - 1 ==> |ps[j]| == maxChars)
  {
    var s := serialize(data);
    CharPiecesProperties(s, maxChars, 0);
    assert s[0..] == s;
    assert |CharPieces(s, maxChars, 0)| > 0;
  }

  /** `texts` path for an array: each serialised chunk is the serialisation
      of the matching chunk object, cut with at least five items per chunk. */
  lemma TextsArrayPath(data: Json, maxChars: int, serialize: Json -> string)
    requires HasTexts(data) && TextsOf(data).JArr?
    requires 0 < maxChars < |serialize(data)|
    ensures ItemsPerChunk(|TextsOf(data).items|, |serialize(data)|, maxChars).Success?
    ensures var k := ItemsPerChunk(|TextsOf(data).items|, |serialize(data)|, maxChars).value;
      && k >= 5
      && ChunkJsonBySize(data, maxChars, serialize)
           == Success(MapSerialize(ArrayChunks(TextsOf(data).items, k, OriginOf(data)), serialize))
  {
  }

  /** `texts` path for a string, which Python slices by character: each
      serialised chunk is the serialisation of the matching chunk object,
      and the chunks' `texts` concatenate back to the string. */
  lemma TextsStringPath(data: Json, maxChars: int, serialize: Json -> string)
    requires HasTexts(data) && TextsOf(data).JStr?
    requires 0 < maxChars < |serialize(data)|
    ensures ItemsPerChunk(|TextsOf(data).s|, |serialize(data)|, maxChars).Success?
    ensures var k := ItemsPerChunk(|TextsOf(data).s|, |serialize(data)|, maxChars).value;
      && k >= 5
      && ChunkJsonBySize(data, maxChars, serialize)
           == Success(MapSerialize(StringChunks(TextsOf(data).s, k, OriginOf(data)), serialize))
      && Flatten(AllStrings(StringChunks(TextsOf(data).s, k, OriginOf(data)))) == TextsOf(data).s
  {
    var k := ItemsPerChunk(|TextsOf(data).s|, |serialize(data)|, maxChars).value;
    StringChunksReassemble(TextsOf(data).s, k, OriginOf(data));
  }

  /** An empty `texts` array in a document too large for one chunk gives no
      chunks at all. */
  lemma EmptyTextsGiveNoChunks(data: Json, maxChars: int, serialize: Json -> string)
    requires HasTexts(data) && TextsOf(data) == JArr([])
    requires 0 < maxChars < |serialize(data)|
    ensures ChunkJsonBySize(data, maxChars, serialize) == Success([])
  {
  }
}
