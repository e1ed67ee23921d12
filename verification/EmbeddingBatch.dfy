/** `_embedding_response_error`: which upstream answers are a complete batch of usable vectors. */
module EmbeddingBatch {
  import opened Text
  import opened Json
  import opened JsonObject
  import opened Base64
  import opened Counting

  datatype Fault =
    | NotAnObject | UpstreamError | NoData | WrongCount | RowNotAnObject | BadIndex
    | NotBase64 | BadLength | NotNumeric | NotFinite | SizesDiffer | WrongDimensions

  /** What the request fixes: how many vectors, which encoding, which size. */
  datatype Wanted = Wanted(count: nat, base64: bool, dimensions: Option<nat>)

  /** A token array is one input; an array of texts or of token arrays is a batch. */
  function WantedOf(payload: seq<Member>): (w: Wanted) {
    Wanted(
      match Get(payload, "input")
      case Some(Arr(items)) => if items != [] && (items[0].Str? || items[0].Arr?) then |items| else 1
      case _ => 1,
      Get(payload, "encoding_format") == Some(Str("base64")),
      match Get(payload, "dimensions")
      case Some(Int(d)) => if d > 0 then Some(d) else None
      case _ => None)
  }

  // ----- what a complete batch is -----

  function IndexOf(row: Json): Option<int> {
    if row.Obj? then match Get(row.members, "index") case Some(Int(k)) => Some(k) case _ => None
    else None
  }

  predicate Number(j: Json) { j.Int? || j.Float? }

  /** The size of a row's vector, if it is well formed and all its values are finite. */
  function SizeOf(row: Json, base64: bool, finite: Json -> bool): Option<nat> {
    if !row.Obj? then None
    else
      match Get(row.members, "embedding")
      case Some(Str(text)) =>
        if !base64 then None
        else
          var raw :- Decode(text);
          if raw != [] && |raw| % 4 == 0 && FiniteWords(raw) then Some(|raw| / 4) else None
      case Some(Arr(values)) =>
        if base64 || values == [] then None
        else if forall k :: 0 <= k < |values| ==> Number(values[k]) && finite(values[k]) then Some(|values|) else None
      case _ => None
  }

  /** The first `n` rows have distinct indices below `count`. */
  predicate GoodIndices(rows: seq<Json>, n: nat, count: nat)
    requires n <= |rows|
  {
    && (forall k :: 0 <= k < n ==> IndexOf(rows[k]).Some? && 0 <= IndexOf(rows[k]).value < count)
    && (forall j, k :: 0 <= j < k < n ==> IndexOf(rows[j]) != IndexOf(rows[k]))
  }

  /** The first `n` rows have finite vectors of one size. */
  predicate GoodVectors(rows: seq<Json>, n: nat, size: nat, base64: bool, finite: Json -> bool)
    requires n <= |rows|
  {
    forall k :: 0 <= k < n ==> SizeOf(rows[k], base64, finite) == Some(size)
  }

  ghost predicate GoodRows(rows: seq<Json>, w: Wanted, finite: Json -> bool) {
    && GoodIndices(rows, |rows|, w.count)
    && exists size: nat ::
         GoodVectors(rows, |rows|, size, w.base64, finite) && (w.dimensions.Some? ==> w.dimensions == Some(size))
  }

  function RowsOf(result: Json): Option<seq<Json>> {
    if !result.Obj? then None
    else if Get(result.members, "error").Some? && Get(result.members, "error") != Some(Null) then None
    else match Get(result.members, "data") case Some(Arr(rows)) => Some(rows) case _ => None
  }

  /** Exactly as many rows as inputs, a distinct index for each, and finite vectors of one size. */
  ghost predicate Complete(result: Json, payload: seq<Member>, finite: Json -> bool) {
    && RowsOf(result).Some?
    && var rows, w := RowsOf(result).value, WantedOf(payload);
    && rows != [] && |rows| == w.count && GoodRows(rows, w, finite)
  }

  /** In a complete batch every input has exactly one vector. */
  lemma EveryInputOnce(rows: seq<Json>, i: nat)
    requires GoodIndices(rows, |rows|, |rows|) && i < |rows|
    ensures exists k :: 0 <= k < |rows| && IndexOf(rows[k]) == Some(i)
    ensures forall j, k :: 0 <= j < |rows| && 0 <= k < |rows| && IndexOf(rows[j]) == IndexOf(rows[k]) ==> j == k
  {
    var s := seq(|rows|, k requires 0 <= k < |rows| => IndexOf(rows[k]).value);
    Pigeonhole(s, |rows|);
    assert i in s;
    var k :| 0 <= k < |s| && s[k] == i;
    assert IndexOf(rows[k]) == Some(i);
  }

  // ----- the loop -----

  /** The vector of one row, as the loop body checks it. */
  method CheckVector(row: Json, base64: bool, finite: Json -> bool) returns (size: nat, fault: Option<Fault>)
    requires row.Obj?
    ensures fault.None? <==> SizeOf(row, base64, finite).Some?
    ensures fault.None? ==> SizeOf(row, base64, finite) == Some(size)
  {
    size := 0;
    var vector := Get(row.members, "embedding");
    if base64 {
      if vector.None? || !vector.value.Str? || vector.value.s == "" {
        return 0, Some(NotBase64);
      }
      var raw := Decode(vector.value.s);
      if raw.None? {
        return 0, Some(NotBase64);
      }
      if raw.value == [] || |raw.value| % 4 != 0 {
        return 0, Some(BadLength);
      }
      if !FiniteWords(raw.value) {
        return 0, Some(NotFinite);
      }
      return |raw.value| / 4, None;
    }
    if vector.None? || !vector.value.Arr? || vector.value.items == [] {
      return 0, Some(NotNumeric);
    }
    var values := vector.value.items;
    var k := 0;
    while k < |values|
      invariant 0 <= k <= |values| && forall j :: 0 <= j < k ==> Number(values[j]) && finite(values[j])
    {
      if !Number(values[k]) || !finite(values[k]) {
        return 0, Some(NotFinite);
      }
      k := k + 1;
    }
    return |values|, None;
  }

  /** `_embedding_response_error`: None exactly for a complete batch. */
  method ResponseError(result: Json, payload: seq<Member>, finite: Json -> bool) returns (fault: Option<Fault>)
    ensures fault.None? <==> Complete(result, payload, finite)
  {
    if !result.Obj? {
      return Some(NotAnObject);
    }
    var error := Get(result.members, "error");
    if error.Some? && error.value != Null {
      return Some(UpstreamError);
    }
    var data := Get(result.members, "data");
    if data.None? || !data.value.Arr? || data.value.items == [] {
      return Some(NoData);
    }
    var rows, w := data.value.items, WantedOf(payload);
    if |rows| != w.count {
      return Some(WrongCount);
    }
    fault := CheckRows(rows, w, finite);
  }

  /** The index half of the loop body. */
  method CheckIndex(rows: seq<Json>, i: nat, indices: set<int>, count: nat)
    returns (now: set<int>, fault: Option<Fault>)
    requires i < |rows| && GoodIndices(rows, i, count) && Seen(rows, i, indices)
    ensures fault.None? <==> GoodIndices(rows, i + 1, count)
    ensures fault.None? ==> rows[i].Obj? && Seen(rows, i + 1, now)
  {
    now := indices;
    if !rows[i].Obj? {
      return now, Some(RowNotAnObject);
    }
    var index := IndexOf(rows[i]);
    hide IndexOf;
    if index.None? || index.value < 0 || index.value >= count || index.value in indices {
      return now, Some(BadIndex);
    }
    now := indices + {index.value};
    forall v | v in now ensures exists k :: 0 <= k < i + 1 && IndexOf(rows[k]) == Some(v) {
      if v == index.value {
        assert IndexOf(rows[i]) == Some(v);
      }
    }
    return now, None;
  }

  method CheckRows(rows: seq<Json>, w: Wanted, finite: Json -> bool) returns (fault: Option<Fault>)
    requires rows != []
    ensures fault.None? <==> GoodRows(rows, w, finite)
  {
    var indices: set<int> := {};
    var vectorSize: Option<nat> := None;
    var i := 0;
    assert GoodIndices(rows, 0, w.count) && Seen(rows, 0, {});
    hide SizeOf, IndexOf, GoodIndices, Seen, GoodRows, GoodVectors;
    while i < |rows|
      invariant 0 <= i <= |rows| && GoodIndices(rows, i, w.count) && Seen(rows, i, indices)
      invariant vectorSize.None? <==> i == 0
      invariant i > 0 ==> GoodVectors(rows, i, vectorSize.value, w.base64, finite)
                          && (w.dimensions.Some? ==> w.dimensions == vectorSize)
    {
      if GoodRows(rows, w, finite) {
        GoodPrefix(rows, w, finite, i);
      }
      indices, fault := CheckIndex(rows, i, indices, w.count);
      if fault.Some? {
        return;
      }
      var size;
      size, fault := CheckVector(rows[i], w.base64, finite);
      if fault.Some? {
        return;
      }
      OneSize(rows, i, vectorSize, size, w.base64, finite);
      if vectorSize.Some? && size != vectorSize.value {
        return Some(SizesDiffer);
      }
      if w.dimensions.Some? && size != w.dimensions.value {
        return Some(WrongDimensions);
      }
      vectorSize := Some(size);
      i := i + 1;
    }
    GoodAtEnd(rows, w, finite, vectorSize.value);
    return None;
  }

  lemma OneSize(rows: seq<Json>, i: nat, before: Option<nat>, size: nat, base64: bool, finite: Json -> bool)
    requires i < |rows| && SizeOf(rows[i], base64, finite) == Some(size) && (before.None? <==> i == 0)
    requires i > 0 ==> GoodVectors(rows, i, before.value, base64, finite)
    ensures i == 0 || before == Some(size) ==> GoodVectors(rows, i + 1, size, base64, finite)
    ensures i > 0 ==> SizeOf(rows[0], base64, finite) == before
  {
    hide SizeOf;
  }

  lemma GoodAtEnd(rows: seq<Json>, w: Wanted, finite: Json -> bool, size: nat)
    requires GoodIndices(rows, |rows|, w.count) && GoodVectors(rows, |rows|, size, w.base64, finite)
    requires w.dimensions.Some? ==> w.dimensions == Some(size)
    ensures GoodRows(rows, w, finite)
  {
    hide GoodIndices, GoodVectors;
  }

  lemma GoodPrefix(rows: seq<Json>, w: Wanted, finite: Json -> bool, i: nat)
    requires GoodRows(rows, w, finite) && i < |rows|
    ensures GoodIndices(rows, i + 1, w.count) && SizeOf(rows[i], w.base64, finite).Some?
    ensures SizeOf(rows[i], w.base64, finite) == SizeOf(rows[0], w.base64, finite)
    ensures w.dimensions.Some? ==> w.dimensions == SizeOf(rows[i], w.base64, finite)
  {
  }

  /** `indices` holds the indices of the first `n` rows. */
  ghost predicate Seen(rows: seq<Json>, n: nat, indices: set<int>)
    requires n <= |rows|
  {
    && (forall k :: 0 <= k < n && IndexOf(rows[k]).Some? ==> IndexOf(rows[k]).value in indices)
    && (forall v :: v in indices ==> exists k :: 0 <= k < n && IndexOf(rows[k]) == Some(v))
  }

  // ----- what honest answers pass -----

  /** A finite float32 vector that was encoded in base64 is read back with its size. */
  lemma EncodedVectorAccepted(row: Json, raw: seq<Byte>, finite: Json -> bool)
    requires row.Obj? && Get(row.members, "embedding") == Some(Str(Encode(raw)))
    requires raw != [] && |raw| % 4 == 0 && forall k: nat :: k < |raw| / 4 ==> WordFiniteAt(raw, k)
    ensures SizeOf(row, true, finite) == Some(|raw| / 4)
  {
    hide Decode, Encode, FiniteWords, WordFiniteAt, Get;
    DecodeEncode(raw);
    FiniteWordsExact(raw);
  }

  // ----- the same, stated of the answer itself -----

  /** How many vectors a request asks for: one for each text or token array of a batch, else one. */
  predicate Asks(payload: seq<Member>, n: nat) {
    match Get(payload, "input")
    case Some(Arr(items)) =>
      (match if items == [] then Null else items[0]
       case Str(_) => n == |items|
       case Arr(_) => n == |items|
       case _ => n == 1)
    case _ => n == 1
  }

  /** The row holds a vector of `size` finite numbers, as an array or, if asked for, as base64 of 32-bit words. */
  ghost predicate HoldsVector(row: seq<Member>, size: nat, base64: bool, finite: Json -> bool) {
    size >= 1 && match Get(row, "embedding")
    case Some(Str(text)) => base64 && exists raw :: EncodesWords(text, raw, size)
    case Some(Arr(values)) =>
      !base64 && |values| == size && forall v :: v in values ==> (v.Int? || v.Float?) && finite(v)
    case _ => false
  }

  ghost predicate EncodesWords(text: string, raw: seq<Byte>, size: nat) {
    Decode(text) == Some(raw) && |raw| == 4 * size && forall k: nat :: k < size ==> WordFiniteAt(raw, k)
  }

  /** Row `k` is the one row for input `i`. */
  predicate OnlyRow(rows: seq<Json>, i: int, k: nat) {
    k < |rows| && forall j :: 0 <= j < |rows| ==>
      (rows[j].Obj? && Get(rows[j].members, "index") == Some(Int(i)) <==> j == k)
  }

  ghost predicate HasRow(rows: seq<Json>, i: int) { exists k: nat :: OnlyRow(rows, i, k) }

  /** An object without an error, whose data are objects, one for each input and each with a vector of the same
      size, which is the size asked for if a positive one is. */
  ghost predicate IsBatch(result: Json, payload: seq<Member>, finite: Json -> bool, rows: seq<Json>, size: nat) {
    && result.Obj? && Get(result.members, "error") in {None, Some(Null)}
    && Get(result.members, "data") == Some(Arr(rows)) && rows != [] && Asks(payload, |rows|)
    && (forall i :: 0 <= i < |rows| ==> HasRow(rows, i))
    && (forall k :: 0 <= k < |rows| ==>
          rows[k].Obj?
          && HoldsVector(rows[k].members, size, Get(payload, "encoding_format") == Some(Str("base64")), finite))
    && match Get(payload, "dimensions") case Some(Int(d)) => d >= 1 ==> d == size case _ => true
  }

  lemma WantedExact(payload: seq<Member>, n: nat)
    ensures WantedOf(payload).count == n <==> Asks(payload, n)
    ensures WantedOf(payload).base64 <==> Get(payload, "encoding_format") == Some(Str("base64"))
    ensures (WantedOf(payload).dimensions.Some? ==> WantedOf(payload).dimensions == Some(n))
       <==> match Get(payload, "dimensions") case Some(Int(d)) => d >= 1 ==> d == n case _ => true
  {
    hide Get;
  }

  lemma SizeExact(row: Json, size: nat, base64: bool, finite: Json -> bool)
    ensures SizeOf(row, base64, finite) == Some(size) <==> row.Obj? && HoldsVector(row.members, size, base64, finite)
  {
    hide Get, Decode, FiniteWords, WordFiniteAt;
    if row.Obj? {
      match Get(row.members, "embedding") {
        case Some(Str(text)) => WordsExact(text, size);
        case Some(Arr(values)) =>
          assert (forall v :: v in values ==> (v.Int? || v.Float?) && finite(v))
            <==> forall k :: 0 <= k < |values| ==> Number(values[k]) && finite(values[k]);
        case _ =>
      }
    }
  }

  lemma WordsExact(text: string, size: nat)
    ensures (exists raw :: EncodesWords(text, raw, size)) <==>
            Decode(text).Some? && FiniteWords(Decode(text).value) && |Decode(text).value| == 4 * size
  {
    hide Decode, FiniteWords, WordFiniteAt;
    match Decode(text) {
      case None =>
      case Some(raw) =>
        if |raw| == 4 * size {
          FiniteWordsExact(raw);
          assert |raw| / 4 == size;
          assert FiniteWords(raw) ==> EncodesWords(text, raw, size);
        }
    }
  }

  /** Indices are good exactly if every input has one row. */
  lemma IndicesExact(rows: seq<Json>)
    ensures GoodIndices(rows, |rows|, |rows|) <==> forall i :: 0 <= i < |rows| ==> HasRow(rows, i)
  {
    hide OnlyRow, IndexOf;
    if GoodIndices(rows, |rows|, |rows|) {
      forall i | 0 <= i < |rows| ensures HasRow(rows, i) {
        EveryInputOnce(rows, i);
        var k :| 0 <= k < |rows| && IndexOf(rows[k]) == Some(i);
        OnlyRowMeans(rows, i, k);
        assert OnlyRow(rows, i, k);
      }
    }
    if forall i :: 0 <= i < |rows| ==> HasRow(rows, i) {
      OneRowEach(rows);
    }
  }

  lemma OnlyRowMeans(rows: seq<Json>, i: int, k: nat)
    ensures OnlyRow(rows, i, k) <==>
            k < |rows| && forall j :: 0 <= j < |rows| ==> (IndexOf(rows[j]) == Some(i) <==> j == k)
  {
    hide Get;
  }

  ghost function RowFor(rows: seq<Json>, i: int): nat
    requires HasRow(rows, i)
  {
    var k: nat :| OnlyRow(rows, i, k);
    k
  }

  lemma OneRowEach(rows: seq<Json>)
    requires forall i :: 0 <= i < |rows| ==> HasRow(rows, i)
    ensures GoodIndices(rows, |rows|, |rows|)
  {
    hide OnlyRow, IndexOf, RowFor, HasRow;
    var n := |rows|;
    var s: seq<int> := seq(n, i requires 0 <= i < n => RowFor(rows, i));
    forall i | 0 <= i < n
      ensures 0 <= s[i] < n && forall j :: 0 <= j < n ==> (IndexOf(rows[j]) == Some(i) <==> j == s[i])
    {
      RowForIs(rows, i);
      OnlyRowMeans(rows, i, s[i]);
    }
    assert forall i, j :: 0 <= i < j < n ==> s[i] != s[j] by {
      forall i, j | 0 <= i < j < n ensures s[i] != s[j] {
        assert IndexOf(rows[s[i]]) == Some(i) && IndexOf(rows[s[j]]) == Some(j);
      }
    }
    Pigeonhole(s, n);
    forall k | 0 <= k < n ensures IndexOf(rows[k]).Some? && 0 <= IndexOf(rows[k]).value < n {
      assert k in s;
      var i :| 0 <= i < n && s[i] == k;
      assert IndexOf(rows[s[i]]) == Some(i);
    }
    forall j, k | 0 <= j < k < n ensures IndexOf(rows[j]) != IndexOf(rows[k]) {
      var i := IndexOf(rows[j]).value;
      assert j == s[i];
    }
  }

  lemma RowForIs(rows: seq<Json>, i: int)
    requires HasRow(rows, i)
    ensures OnlyRow(rows, i, RowFor(rows, i))
  {
  }

  /** The loop's acceptance, stated of the answer itself: one row for every input, each with its vector. */
  lemma CompleteExact(result: Json, payload: seq<Member>, finite: Json -> bool)
    ensures Complete(result, payload, finite)
       <==> exists rows, size: nat :: IsBatch(result, payload, finite, rows, size)
  {
    hide Get, Asks, HoldsVector, OnlyRow, SizeOf, IndexOf;
    var w := WantedOf(payload);
    if Complete(result, payload, finite) {
      var rows := RowsOf(result).value;
      var size: nat :|
        GoodVectors(rows, |rows|, size, w.base64, finite) && (w.dimensions.Some? ==> w.dimensions == Some(size));
      BatchRows(rows, payload, finite, size);
      assert IsBatch(result, payload, finite, rows, size);
    }
    if rows, size: nat :| IsBatch(result, payload, finite, rows, size) {
      BatchRows(rows, payload, finite, size);
      SizeOfFirst(rows, payload, finite, size);
    }
  }

  lemma SizeOfFirst(rows: seq<Json>, payload: seq<Member>, finite: Json -> bool, size: nat)
    requires rows != [] && rows[0].Obj?
    requires HoldsVector(rows[0].members, size, Get(payload, "encoding_format") == Some(Str("base64")), finite)
    ensures size >= 1
  {
  }

  lemma BatchRows(rows: seq<Json>, payload: seq<Member>, finite: Json -> bool, size: nat)
    requires rows != []
    ensures var w := WantedOf(payload);
            && (|rows| == w.count <==> Asks(payload, |rows|))
            && (|rows| == w.count ==>
                  (GoodIndices(rows, |rows|, w.count) <==>
                   forall i :: 0 <= i < |rows| ==> HasRow(rows, i)))
            && (GoodVectors(rows, |rows|, size, w.base64, finite) <==>
                  forall k :: 0 <= k < |rows| ==>
                    rows[k].Obj?
                    && HoldsVector(rows[k].members, size, Get(payload, "encoding_format") == Some(Str("base64")),
                                   finite))
            && ((w.dimensions.Some? ==> w.dimensions == Some(size)) <==>
                  match Get(payload, "dimensions") case Some(Int(d)) => d >= 1 ==> d == size case _ => true)
  {
    var w := WantedOf(payload);
    WantedExact(payload, |rows|);
    WantedExact(payload, size);
    IndicesExact(rows);
    forall k | 0 <= k < |rows|
      ensures SizeOf(rows[k], w.base64, finite) == Some(size)
         <==> rows[k].Obj? && HoldsVector(rows[k].members, size, w.base64, finite)
    {
      SizeExact(rows[k], size, w.base64, finite);
    }
    hide WantedOf, Get, Asks, HoldsVector, OnlyRow, SizeOf, IndexOf, GoodIndices;
  }
}
