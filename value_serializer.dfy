/**
 * The tagged text form in which the test client sends values to the Couchbase Lite test
 * server (CBLClient/ValueSerializer.py): `serialize` turns a Python value into its
 * encoding and `deserialize` reads one back.
 *
 * The JSON text that `json.dumps` / `json.loads` produce for lists and dictionaries is not
 * modelled: an encoding is a `Wire`, which is either the plain text of a scalar or the JSON
 * array / object whose elements are themselves encodings.
 */
module ValueSerializer {
  import opened Results
  import opened Decimal

  /** Python 2 keeps an int in one machine word (64 bits here); larger numbers are longs. */
  const MinInt: int := -0x8000_0000_0000_0000
  const MaxInt: int := 0x7FFF_FFFF_FFFF_FFFF

  predicate InIntRange(n: int) {
    MinInt <= n <= MaxInt
  }

  /** The Python values `serialize` is given (floats are not modelled). */
  datatype Value =
    | Null                          // None
    | Pointer(address: string)      // a MemoryPointer, known only by its address
    | Str(s: string)                // str, and unicode after UTF-8 encoding
    | Bool(b: bool)
    | Int(i: int)                   // int
    | Long(l: int)                  // long
    | Dict(entries: map<string, Value>)
    | List(items: seq<Value>)
    | Unsupported(typeName: string) // any other Python type, e.g. a tuple or a set

  /** An encoding: scalar text, or a JSON array / object of element encodings. */
  datatype Wire =
    | Text(s: string)
    | JsonArray(items: seq<Wire>)
    | JsonObject(fields: map<string, Wire>)

  /** `serialize` raises RuntimeError("Invalid value type ...") */
  datatype EncodeError = InvalidValueType

  datatype DecodeError =
    | InvalidEncoding(text: string)  // RuntimeError("Invalid value type ...")
    | BadNumber(text: string)        // ValueError from int() or long()
    | FloatValue(text: string)       // decodes to a float, which the model does not represent
    | RawJsonText(text: string)      // JSON text to be parsed by json.loads, not modelled
    | InDictEntry                    // an element of a dictionary failed to decode

  /** Every value that a Python program could hand to `serialize` and get back unchanged. */
  predicate WellFormed(v: Value)
    decreases v
  {
    match v
    case Pointer(a) => |a| > 0 && a[0] == '@'
    case Int(i) => InIntRange(i)
    case Dict(m) => forall k | k in m :: WellFormed(m[k])
    case List(items) => forall i | 0 <= i < |items| :: WellFormed(items[i])
    case Unsupported(_) => false
    case _ => true
  }

  /** No value of an unsupported type anywhere inside. */
  predicate Serializable(v: Value)
    decreases v
  {
    match v
    case Dict(m) => forall k | k in m :: Serializable(m[k])
    case List(items) => forall i | 0 <= i < |items| :: Serializable(items[i])
    case Unsupported(_) => false
    case _ => true
  }

  /** What `serialize` returns, or the error it raises. */
  function Encode(v: Value): (r: Result<Wire, EncodeError>)
    decreases v, 1
  {
    match v
    case Null => Ok(Text("null"))
    case Pointer(a) => Ok(Text(a))
    case Str(s) => Ok(Text("\"" + s + "\""))
    case Bool(b) => Ok(Text(if b then "true" else "false"))
    case Int(i) => Ok(Text("I" + IntToString(i)))
    case Long(l) => Ok(Text("L" + IntToString(l)))
    case Dict(m) =>
      if forall k | k in m :: Encode(m[k]).Ok? then Ok(JsonObject(EncodedEntries(v)))
      else Err(InvalidValueType)
    case List(items) =>
      if forall i | 0 <= i < |items| :: Encode(items[i]).Ok? then Ok(JsonArray(EncodedItems(v)))
      else Err(InvalidValueType)
    case Unsupported(_) => Err(InvalidValueType)
  }

  /** The `stringMap` of a dictionary whose values all encode. */
  function EncodedEntries(v: Value): map<string, Wire>
    requires v.Dict? && forall k | k in v.entries :: Encode(v.entries[k]).Ok?
    decreases v, 0
  {
    map k | k in v.entries :: Encode(v.entries[k]).value
  }

  /** The `stringList` of a list whose elements all encode. */
  function EncodedItems(v: Value): seq<Wire>
    requires v.List? && forall i | 0 <= i < |v.items| :: Encode(v.items[i]).Ok?
    decreases v, 0
  {
    seq(|v.items|, i requires 0 <= i < |v.items| => Encode(v.items[i]).value)
  }

  /** `int(text)`: an int when the number fits a machine word, otherwise Python 2 makes it a long. */
  function DecodeIntText(text: string, digits: string): Result<Value, DecodeError> {
    match ParseInt(digits)
    case None => Err(BadNumber(text))
    case Some(n) => Ok(if InIntRange(n) then Int(n) else Long(n))
  }

  /** The scalar branches of `deserialize`, tested in the source's order. */
  function DecodeText(s: string): (r: Result<Value, DecodeError>)
    ensures r.Ok? && r.value.Str? ==> |s| > 0 && s[0] == '"'
  {
    if s == "" || s == "null" then Ok(Null)
    else if s[0] == '@' then Ok(Pointer(s))
    else if s[0] == '"' && s[|s| - 1] == '"' then Ok(Str(if |s| >= 2 then s[1..|s| - 1] else ""))
    else if s == "true" then Ok(Bool(true))
    else if s == "false" then Ok(Bool(false))
    else if s[0] == 'I' then DecodeIntText(s, s[1..])
    else if s[0] == 'L' then
      (match ParseInt(s[1..])
       case None => Err(BadNumber(s))
       case Some(n) => Ok(Long(n)))
    else if s[0] == 'F' || s[0] == 'D' then Err(FloatValue(s))
    else if s[0] == '#' then
      (if '.' in s then Err(FloatValue(s)) else DecodeIntText(s, s[1..]))
    else if s[0] == '{' || s[0] == '[' then Err(RawJsonText(s))
    else Err(InvalidEncoding(s))
  }

  /** What `deserialize` returns, or the error it raises. */
  function Decode(w: Wire): (r: Result<Value, DecodeError>)
    decreases w, 1, 0
  {
    match w
    case Text(s) => DecodeText(s)
    case JsonArray(_) =>
      (match DecodeItems(w, 0)
       case Ok(vs) => Ok(List(vs))
       case Err(e) => Err(e))
    case JsonObject(f) =>
      if forall k | k in f :: Decode(f[k]).Ok? then Ok(Dict(DecodedFields(w)))
      else Err(InDictEntry)
  }

  /** The `dict_map` of an object whose values all decode. */
  function DecodedFields(w: Wire): map<string, Value>
    requires w.JsonObject? && forall k | k in w.fields :: Decode(w.fields[k]).Ok?
    decreases w, 0, 0
  {
    map k | k in w.fields :: Decode(w.fields[k]).value
  }

  /** The elements of array `a` from index `i` on, decoded in order; the first failure wins. */
  function DecodeItems(a: Wire, i: nat): (r: Result<seq<Value>, DecodeError>)
    requires a.JsonArray? && i <= |a.items|
    ensures r.Ok? ==> |r.value| == |a.items| - i
    decreases a, 0, |a.items| - i
  {
    if i == |a.items| then Ok([])
    else
      match Decode(a.items[i])
      case Err(e) => Err(e)
      case Ok(v) =>
        match DecodeItems(a, i + 1)
        case Err(e) => Err(e)
        case Ok(vs) => Ok([v] + vs)
  }

  /** `vs` in front of the values of `r`, or the error of `r`. */
  function Prepend(vs: seq<Value>, r: Result<seq<Value>, DecodeError>): Result<seq<Value>, DecodeError> {
    match r
    case Ok(ws) => Ok(vs + ws)
    case Err(e) => Err(e)
  }

  lemma PrependNothing(r: Result<seq<Value>, DecodeError>)
    ensures Prepend([], r) == r
  {
    if r.Ok? {
      assert [] + r.value == r.value;
    }
  }

  lemma PrependStep(vs: seq<Value>, v: Value, r: Result<seq<Value>, DecodeError>)
    ensures Prepend(vs + [v], r) == Prepend(vs, Prepend([v], r))
  {
    if r.Ok? {
      assert vs + [v] + r.value == vs + ([v] + r.value);
    }
  }

  /** `ValueSerializer.serialize`: the list and dict branches fill their accumulators in a loop. */
  method Serialize(v: Value) returns (r: Result<Wire, EncodeError>)
    ensures r == Encode(v)
    ensures r.Ok? <==> Serializable(v)
    decreases v
  {
    EncodeSucceedsIff(v);
    match v {
      case Dict(m) =>
        var stringMap: map<string, Wire> := map[];
        var pending := m.Keys;
        while pending != {}
          invariant pending <= m.Keys
          invariant stringMap.Keys == m.Keys - pending
          invariant forall k | k in stringMap :: Encode(m[k]) == Ok(stringMap[k])
          decreases pending
        {
          var k :| k in pending;
          var encoded := Serialize(m[k]);
          if encoded.Err? {
            return Err(InvalidValueType);
          }
          stringMap := stringMap[k := encoded.value];
          pending := pending - {k};
        }
        assert stringMap == EncodedEntries(v);
        r := Ok(JsonObject(stringMap));
      case List(items) =>
        var stringList: seq<Wire> := [];
        for i := 0 to |items|
          invariant |stringList| == i
          invariant forall j | 0 <= j < i :: Encode(items[j]) == Ok(stringList[j])
        {
          var encoded := Serialize(items[i]);
          if encoded.Err? {
            return Err(InvalidValueType);
          }
          stringList := stringList + [encoded.value];
        }
        assert stringList == EncodedItems(v);
        r := Ok(JsonArray(stringList));
      case _ =>
        r := Encode(v);
    }
  }

  /** `ValueSerializer.deserialize`: the list and dict branches fill their results in a loop. */
  method Deserialize(w: Wire) returns (r: Result<Value, DecodeError>)
    ensures r == Decode(w)
    ensures r.Ok? ==> WellFormed(r.value)
    decreases w
  {
    DecodedIsWellFormed(w);
    match w {
      case Text(s) =>
        r := DecodeText(s);
      case JsonArray(items) =>
        var resList: seq<Value> := [];
        PrependNothing(DecodeItems(w, 0));
        for i := 0 to |items|
          invariant |resList| == i
          invariant DecodeItems(w, 0) == Prepend(resList, DecodeItems(w, i))
        {
          var obj := Deserialize(items[i]);
          if obj.Err? {
            assert DecodeItems(w, i) == Err(obj.error);
            return Err(obj.error);
          }
          PrependStep(resList, obj.value, DecodeItems(w, i + 1));
          resList := resList + [obj.value];
        }
        assert resList + [] == resList;
        r := Ok(List(resList));
      case JsonObject(f) =>
        var dictMap: map<string, Value> := map[];
        var pending := f.Keys;
        while pending != {}
          invariant pending <= f.Keys
          invariant dictMap.Keys == f.Keys - pending
          invariant forall k | k in dictMap :: Decode(f[k]) == Ok(dictMap[k])
          decreases pending
        {
          var key :| key in pending;
          var obj := Deserialize(f[key]);
          if obj.Err? {
            return Err(InDictEntry);
          }
          dictMap := dictMap[key := obj.value];
          pending := pending - {key};
        }
        assert dictMap == DecodedFields(w);
        r := Ok(Dict(dictMap));
    }
  }

  /** `serialize` raises exactly when a value of an unsupported type occurs somewhere inside. */
  lemma {:induction false} EncodeSucceedsIff(v: Value)
    ensures Encode(v).Ok? <==> Serializable(v)
    decreases v
  {
    match v {
      case Dict(m) =>
        forall k | k in m ensures Encode(m[k]).Ok? <==> Serializable(m[k]) {
          EncodeSucceedsIff(m[k]);
        }
      case List(items) =>
        forall i | 0 <= i < |items| ensures Encode(items[i]).Ok? <==> Serializable(items[i]) {
          EncodeSucceedsIff(items[i]);
        }
      case _ =>
    }
  }

  /** Decoding array elements that each decode to the matching value gives those values. */
  lemma {:induction false} DecodeItemsOf(a: Wire, vs: seq<Value>, i: nat)
    requires a.JsonArray? && |vs| == |a.items| && i <= |vs|
    requires forall j | i <= j < |vs| :: Decode(a.items[j]) == Ok(vs[j])
    ensures DecodeItems(a, i) == Ok(vs[i..])
    decreases |vs| - i
  {
    if i < |vs| {
      DecodeItemsOf(a, vs, i + 1);
      assert vs[i..] == [vs[i]] + vs[i + 1..];
    }
  }

  /** `deserialize(serialize(v)) == v` for every well-formed value, of every kind. */
  lemma {:induction false} RoundTrip(v: Value)
    requires WellFormed(v)
    ensures Encode(v).Ok? && Decode(Encode(v).value) == Ok(v)
    decreases v
  {
    match v {
      case Null =>
      case Pointer(a) =>
      case Str(s) =>
        var t := "\"" + s + "\"";
        assert t[1..|t| - 1] == s;
      case Bool(b) =>
      case Int(i) =>
        ParseIntToString(i);
        assert ("I" + IntToString(i))[1..] == IntToString(i);
      case Long(l) =>
        ParseIntToString(l);
        assert ("L" + IntToString(l))[1..] == IntToString(l);
      case Dict(m) =>
        forall k | k in m ensures Encode(m[k]).Ok? && Decode(Encode(m[k]).value) == Ok(m[k]) {
          RoundTrip(m[k]);
        }
        var w := JsonObject(EncodedEntries(v));
        assert DecodedFields(w) == m;
      case List(items) =>
        forall i | 0 <= i < |items| ensures Encode(items[i]).Ok? && Decode(Encode(items[i]).value) == Ok(items[i]) {
          RoundTrip(items[i]);
        }
        var a := Encode(v).value;
        DecodeItemsOf(a, items, 0);
        assert items[0..] == items;
    }
  }

  /** Every element `DecodeItems` returns comes from some element of the array. */
  lemma {:induction false} DecodeItemsFrom(a: Wire, i: nat, k: nat)
    requires a.JsonArray? && i <= |a.items|
    requires DecodeItems(a, i).Ok? && k < |DecodeItems(a, i).value|
    ensures i + k < |a.items| && Decode(a.items[i + k]) == Ok(DecodeItems(a, i).value[k])
    decreases |a.items| - i
  {
    if k > 0 {
      DecodeItemsFrom(a, i + 1, k - 1);
    }
  }

  /** Whatever `deserialize` returns is well formed: a pointer starts with '@', an int fits a word. */
  lemma {:induction false} DecodedIsWellFormed(w: Wire)
    ensures Decode(w).Ok? ==> WellFormed(Decode(w).value)
    decreases w
  {
    match w {
      case Text(s) =>
      case JsonArray(items) =>
        if Decode(w).Ok? {
          var vs := Decode(w).value.items;
          forall k | 0 <= k < |vs| ensures WellFormed(vs[k]) {
            DecodeItemsFrom(w, 0, k);
            DecodedIsWellFormed(items[k]);
          }
        }
      case JsonObject(f) =>
        forall k | k in f ensures Decode(f[k]).Ok? ==> WellFormed(Decode(f[k]).value) {
          DecodedIsWellFormed(f[k]);
        }
    }
  }

  /** Re-encoding what was decoded loses nothing: decoding that encoding gives the same value. */
  lemma ReencodeDecoded(w: Wire)
    requires Decode(w).Ok?
    ensures Encode(Decode(w).value).Ok?
    ensures Decode(Encode(Decode(w).value).value) == Decode(w)
  {
    DecodedIsWellFormed(w);
    RoundTrip(Decode(w).value);
  }

  /** `deserialize` gives None for the empty string and for "null"; `serialize(None)` is "null". */
  lemma NullEncodings()
    ensures Encode(Null) == Ok(Text("null"))
    ensures Decode(Text("")) == Ok(Null) && Decode(Text("null")) == Ok(Null)
  {
  }

  /** A quoted string is never read as a keyword or a number, whatever it holds. */
  lemma {:induction false} QuotedKeywordsStayStrings()
    ensures Decode(Encode(Str("true")).value) == Ok(Str("true"))
    ensures Decode(Encode(Str("I5")).value) == Ok(Str("I5"))
    ensures Decode(Encode(Str("null")).value) == Ok(Str("null"))
  {
    RoundTrip(Str("true"));
    RoundTrip(Str("I5"));
    RoundTrip(Str("null"));
  }

  /** A lone quote character passes the quoted-string test and decodes to the empty string. */
  lemma LoneQuoteIsEmptyString()
    ensures Decode(Text("\"")) == Ok(Str(""))
  {
  }

  /** Booleans are tested before ints: True encodes as "true", never as "I1". */
  lemma BooleansAreNotInts(b: bool)
    ensures Encode(Bool(b)) == Ok(Text(if b then "true" else "false"))
    ensures Decode(Encode(Bool(b)).value) == Ok(Bool(b))
  {
  }

  /** Text starting with '#' and holding no '.' is read by `int()`. */
  lemma HashTextIsIntText(s: string)
    requires |s| > 0 && s[0] == '#' && '.' !in s
    ensures DecodeText(s) == DecodeIntText(s, s[1..])
  {
    assert s != "null" && s != "true" && s != "false";
  }

  /** A '#' number without a '.' decodes as an int (or a long, past the machine word). */
  lemma {:induction false} HashNumberIsInt(n: int)
    ensures Decode(Text("#" + IntToString(n))) == Ok(if InIntRange(n) then Int(n) else Long(n))
  {
    ParseIntToString(n);
    var t := IntToString(n);
    var s := "#" + t;
    assert s[1..] == t;
    assert '.' !in s by {
      IntToStringHasNoPoint(n);
      assert forall i | 1 <= i < |s| :: s[i] == t[i - 1];
    }
    HashTextIsIntText(s);
  }

  /** Text "I<n>" for a number past the machine word is read back as a long, not an int. */
  lemma {:induction false} WideIntTextIsLong(n: int)
    requires !InIntRange(n)
    ensures Decode(Text("I" + IntToString(n))) == Ok(Long(n))
  {
    ParseIntToString(n);
    assert ("I" + IntToString(n))[1..] == IntToString(n);
  }

  /** An encoding with no recognised prefix raises. */
  lemma UnrecognisedTextRaises(s: string)
    requires |s| > 0 && s[0] !in "@\"ILFD#{[" && s != "null" && s != "true" && s != "false"
    ensures Decode(Text(s)) == Err(InvalidEncoding(s))
  {
  }

  /** A list encodes element by element, keeping its length and order. */
  lemma ListEncodingIsElementwise(items: seq<Value>, i: nat)
    requires Encode(List(items)).Ok? && i < |items|
    ensures |Encode(List(items)).value.items| == |items|
    ensures Encode(List(items)).value.items[i] == Encode(items[i]).value
  {
  }

  /** A dictionary encodes value by value under the same keys. */
  lemma DictEncodingIsValuewise(m: map<string, Value>, k: string)
    requires Encode(Dict(m)).Ok? && k in m
    ensures Encode(Dict(m)).value.fields.Keys == m.Keys
    ensures Encode(Dict(m)).value.fields[k] == Encode(m[k]).value
  {
  }
}
