/**
 * The share-token codec: `encodeValues` prints the eleven values in `keysReference`
 * order separated by commas and applies `btoa`; `getValuesFromBase64` applies `atob`,
 * checks the number of commas, splits on `,` and maps the pieces back onto the keys
 * by position. The codec is generic in the number type `N`; JavaScript's
 * number-to-string conversion and `Number(...)` are the parameters `format` and `parse`.
 */
module Codec {
  import opened Wrappers
  import opened Text
  import opened Parameters
  import Base64

  // ---------------------------------------------------------------------------
  // Encoding

  /**
   * The `reduce` of `encodeValues`: from key `index` on, append the printed value and,
   * after every key but the last, a comma. What it appends is the printed values from
   * `index` on, joined with single commas.
   */
  function JoinFrom<N>(obj: map<string, N>, format: N -> string, index: nat, acc: string): (r: string)
    requires HasKeys(obj) && index <= |KeysReference|
    ensures index == |KeysReference| ==> r == acc
    ensures index < |KeysReference| ==> r == acc + Join(Printed(obj, format)[index..], ',')
    decreases |KeysReference| - index
  {
    if index == |KeysReference| then acc
    else
      var p := Printed(obj, format);
      var next := acc + p[index] + (if index < |KeysReference| - 1 then "," else "");
      var r := JoinFrom(obj, format, index + 1, next);
      if index == |KeysReference| - 1 then
        JoinLast(p, index);
        r
      else
        JoinStep(p, index);
        r
  }

  /** The joined text `encodeValues` hands to `btoa`. */
  function JoinedValues<N>(obj: map<string, N>, format: N -> string): (r: string)
    requires HasKeys(obj)
    ensures r == Join(Printed(obj, format), ',')
  {
    assert Printed(obj, format)[0..] == Printed(obj, format);
    JoinFrom(obj, format, 0, "")
  }

  /** The printed values in key order. */
  function Printed<N>(obj: map<string, N>, format: N -> string): (p: seq<string>)
    requires HasKeys(obj)
    ensures |p| == |KeysReference|
    ensures forall i :: 0 <= i < |KeysReference| ==> p[i] == format(obj[KeysReference[i]])
  {
    seq(|KeysReference|, i requires 0 <= i < |KeysReference| => format(obj[KeysReference[i]]))
  }

  /**
   * `encodeValues(values)`: the token is the base64 form of the joined text, which
   * `atob` turns back into that text; `btoa` throws on a code unit above 0xFF.
   */
  function EncodeValues<N>(obj: map<string, N>, format: N -> string): (r: Result<string, Exception>)
    requires HasKeys(obj)
    ensures r.Success? <==> Base64.IsLatin1(JoinedValues(obj, format))
    ensures r.Failure? ==> r.error == InvalidCharacterError
    ensures r.Success? ==> Base64.Atob(r.value) == Success(JoinedValues(obj, format))
  {
    var joined := JoinedValues(obj, format);
    if Base64.IsLatin1(joined) then
      Base64.AtobBtoa(joined);
      Base64.Btoa(joined)
    else
      Base64.Btoa(joined)
  }

  lemma JoinLast(p: seq<string>, i: nat)
    requires i == |p| - 1
    ensures Join(p[i..], ',') == p[i]
  {
    assert p[i..] == [p[i]];
  }

  lemma JoinStep(p: seq<string>, i: nat)
    requires i + 1 < |p|
    ensures Join(p[i..], ',') == p[i] + [','] + Join(p[i + 1..], ',')
  {
    assert p[i..][1..] == p[i + 1..];
  }

  /**
   * Encoding order: the joined text puts the printed values in `keysReference` order
   * with one comma between neighbours (`JoinedValues`); when no printed value holds a
   * comma, it therefore has exactly ten commas and splits back into the printed values.
   */
  lemma EncodingOrder<N>(obj: map<string, N>, format: N -> string)
    requires HasKeys(obj)
    ensures Free(Printed(obj, format), ',') ==>
              Count(JoinedValues(obj, format), ',') == |KeysReference| - 1 &&
              Split(JoinedValues(obj, format), ',') == Printed(obj, format)
  {
    var p := Printed(obj, format);
    if Free(p, ',') {
      CountJoin(p, ',');
      SplitJoin(p, ',');
    }
  }

  // ---------------------------------------------------------------------------
  // Decoding

  /**
   * The `reduce` of `getValuesFromBase64` over the distinct `keys`: from key `index` on,
   * set the key to the parse of the piece at the same position.
   */
  function MapFrom<N>(keys: seq<string>, pieces: seq<string>, parse: string -> N, index: nat,
                      obj: map<string, N>): (r: map<string, N>)
    requires Distinct(keys) && |pieces| == |keys| && index <= |keys|
    ensures forall k :: k in r <==> k in obj || k in keys[index..]
    ensures forall j :: index <= j < |keys| ==> r[keys[j]] == parse(pieces[j])
    ensures forall k :: k in obj && k !in keys[index..] ==> r[k] == obj[k]
    decreases |keys| - index
  {
    if index == |keys| then obj
    else MapFrom(keys, pieces, parse, index + 1, obj[keys[index] := parse(pieces[index])])
  }

  /**
   * `getValuesFromBase64(encoded)`: `atob` may throw; no comma at all makes
   * `data.match(/,/g)` null and reading its `length` throws; a comma count other than
   * ten gives null; otherwise the object of the parsed pieces.
   */
  function GetValuesFromBase64<N>(encoded: string, parse: string -> N)
    : (r: Result<Option<map<string, N>>, Exception>)
    ensures Base64.Atob(encoded).Failure? ==> r == Failure(InvalidCharacterError)
    ensures Base64.Atob(encoded).Success? ==>
              var data := Base64.Atob(encoded).value;
              && (Count(data, ',') == 0 ==> r == Failure(TypeError))
              && (Count(data, ',') != 0 && Count(data, ',') != |KeysReference| - 1 ==> r == Success(None))
              && (Count(data, ',') == |KeysReference| - 1 ==> r.Success? && r.value.Some?)
  {
    match Base64.Atob(encoded)
    case Failure(e) => Failure(e)
    case Success(data) =>
      var commas := Count(data, ',');
      if commas == 0 then Failure(TypeError)
      else if commas != |KeysReference| - 1 then Success(None)
      else
        KeysDistinct();
        Success(Some(MapFrom(KeysReference, Split(data, ','), parse, 0, map[])))
  }

  /**
   * Positional mapping: a decoded object has exactly the keys of `keysReference`, and
   * the key at position i holds the parse of the i-th comma-separated piece.
   */
  lemma DecodedPositions<N>(encoded: string, parse: string -> N)
    requires GetValuesFromBase64(encoded, parse).Success?
    requires GetValuesFromBase64(encoded, parse).value.Some?
    ensures Base64.Atob(encoded).Success?
    ensures var data := Base64.Atob(encoded).value;
            var obj := GetValuesFromBase64(encoded, parse).value.value;
            && Count(data, ',') == |KeysReference| - 1
            && (forall k :: k in obj <==> k in KeysReference)
            && forall i :: 0 <= i < |KeysReference| ==>
                 obj[KeysReference[i]] == parse(Split(data, ',')[i])
  {
    var data := Base64.Atob(encoded).value;
    KeysDistinct();
    var pieces := Split(data, ',');
    assert |pieces| == |KeysReference|;
    MapFromAll(KeysReference, pieces, parse);
    assert GetValuesFromBase64(encoded, parse) == Success(Some(MapFrom(KeysReference, pieces, parse, 0, map[])));
  }

  /** The whole `reduce`, from an empty object: exactly the keys, each with the parse of its piece. */
  lemma MapFromAll<N>(keys: seq<string>, pieces: seq<string>, parse: string -> N)
    requires Distinct(keys) && |pieces| == |keys|
    ensures var r := MapFrom(keys, pieces, parse, 0, map[]);
            && (forall k :: k in r <==> k in keys)
            && forall i :: 0 <= i < |keys| ==> r[keys[i]] == parse(pieces[i])
  {
    assert keys[0..] == keys;
  }

  /** An empty token decodes to empty text, which has no comma: `match` gives null and `.length` throws. */
  lemma EmptyTokenThrows<N>(parse: string -> N)
    ensures GetValuesFromBase64("", parse) == Failure(TypeError)
  {
    assert Base64.StripPadding(Base64.RemoveWhitespace("")) == "";
  }

  /** A decoded object has exactly the eleven keys. */
  lemma DecodedKeys<N>(encoded: string, parse: string -> N)
    requires GetValuesFromBase64(encoded, parse).Success?
    requires GetValuesFromBase64(encoded, parse).value.Some?
    ensures var obj := GetValuesFromBase64(encoded, parse).value.value;
            && (forall k :: k in obj <==> k in KeysReference)
            && HasKeys(obj)
  {
    DecodedPositions(encoded, parse);
  }

  // ---------------------------------------------------------------------------
  // Round trip

  lemma Latin1Concat(a: string, b: string)
    requires Base64.IsLatin1(a) && Base64.IsLatin1(b)
    ensures Base64.IsLatin1(a + b)
  {
    assert forall i :: 0 <= i < |a + b| ==> (a + b)[i] == if i < |a| then a[i] else b[i - |a|];
  }

  lemma {:induction false} Latin1Join(pieces: seq<string>)
    requires forall i :: 0 <= i < |pieces| ==> Base64.IsLatin1(pieces[i])
    ensures Base64.IsLatin1(Join(pieces, ','))
    decreases |pieces|
  {
    if |pieces| > 1 {
      Latin1Join(pieces[1..]);
      Latin1Concat(pieces[0], [',']);
      Latin1Concat(pieces[0] + [','], Join(pieces[1..], ','));
    }
  }

  /**
   * Decoding undoes encoding: when every printed value is free of commas and fits in
   * a byte per code unit, encoding succeeds and decoding the token gives an object with
   * exactly the eleven keys, each holding the parse of its printed value.
   */
  lemma RoundTrip<N>(obj: map<string, N>, format: N -> string, parse: string -> N)
    requires HasKeys(obj)
    requires forall i :: 0 <= i < |KeysReference| ==>
               ',' !in format(obj[KeysReference[i]]) && Base64.IsLatin1(format(obj[KeysReference[i]]))
    ensures EncodeValues(obj, format).Success?
    ensures var r := GetValuesFromBase64(EncodeValues(obj, format).value, parse);
            && r.Success? && r.value.Some?
            && (forall k :: k in r.value.value <==> k in KeysReference)
            && forall i :: 0 <= i < |KeysReference| ==>
                 r.value.value[KeysReference[i]] == parse(format(obj[KeysReference[i]]))
  {
    EncodedText(obj, format);
    var token := EncodeValues(obj, format).value;
    DecodedPositions(token, parse);
  }

  /**
   * The token of comma-free, byte-sized printed values exists, and `atob` turns it
   * into text with ten commas that splits into those printed values.
   */
  lemma EncodedText<N>(obj: map<string, N>, format: N -> string)
    requires HasKeys(obj)
    requires forall i :: 0 <= i < |KeysReference| ==>
               ',' !in format(obj[KeysReference[i]]) && Base64.IsLatin1(format(obj[KeysReference[i]]))
    ensures EncodeValues(obj, format).Success?
    ensures var data := Base64.Atob(EncodeValues(obj, format).value);
            && data.Success?
            && Count(data.value, ',') == |KeysReference| - 1
            && Split(data.value, ',') == Printed(obj, format)
  {
    var p := Printed(obj, format);
    assert Free(p, ',');
    Latin1Join(p);
    EncodingOrder(obj, format);
  }

  /**
   * With `parse(format(x)) == x` for the values at hand, the token of an object with
   * exactly the eleven keys decodes to that same object.
   */
  lemma RoundTripIdentity<N>(obj: map<string, N>, format: N -> string, parse: string -> N)
    requires forall k :: k in obj <==> k in KeysReference
    requires forall i :: 0 <= i < |KeysReference| ==>
               ',' !in format(obj[KeysReference[i]]) && Base64.IsLatin1(format(obj[KeysReference[i]]))
    requires forall i :: 0 <= i < |KeysReference| ==>
               parse(format(obj[KeysReference[i]])) == obj[KeysReference[i]]
    ensures HasKeys(obj) && EncodeValues(obj, format).Success?
    ensures GetValuesFromBase64(EncodeValues(obj, format).value, parse) == Success(Some(obj))
  {
    RoundTrip(obj, format, parse);
    var r := GetValuesFromBase64(EncodeValues(obj, format).value, parse);
    var m := r.value.value;
    assert forall i :: 0 <= i < |KeysReference| ==> m[KeysReference[i]] == obj[KeysReference[i]];
    SameOnKeys(KeysReference, m, obj);
    assert r == Success(Some(obj));
  }

  /** Two objects with exactly the listed keys that agree on every key are equal. */
  lemma SameOnKeys<N>(keys: seq<string>, a: map<string, N>, b: map<string, N>)
    requires forall k :: k in a <==> k in keys
    requires forall k :: k in b <==> k in keys
    requires forall i :: 0 <= i < |keys| ==> a[keys[i]] == b[keys[i]]
    ensures a == b
  {
    forall k | k in a ensures a[k] == b[k] {
      var i :| 0 <= i < |keys| && keys[i] == k;
    }
  }
}
