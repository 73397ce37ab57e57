/**
 * The wallpaper's parameters: the fixed key order shared by the encoder and the
 * decoder, the parameter object as JavaScript holds it (a map from key to number),
 * and the same eleven values as a record, which is what `draw` destructures.
 */
module Parameters {

  /** `keysReference`: the order in which the share token lists the values. */
  const KeysReference: seq<string> := [
    "ampl", "hueIncrement", "hueStart", "layers", "light", "lightIncrement",
    "offset", "offsetIncrement", "sat", "segments", "wl"
  ]

  predicate Distinct<K(==)>(keys: seq<K>)
  {
    forall i, j :: 0 <= i < j < |keys| ==> keys[i] != keys[j]
  }

  /** No key is listed twice. */
  lemma KeysDistinct()
    ensures |KeysReference| == 11 && Distinct(KeysReference)
  {
  }

  /** An object that has every key of `KeysReference` (it may have more). */
  predicate HasKeys<N>(obj: map<string, N>)
  {
    forall i :: 0 <= i < |KeysReference| ==> KeysReference[i] in obj
  }

  /** The eleven numbers of a wallpaper, named as the keys are. */
  datatype Values = Values(
    ampl: real,
    hueIncrement: real,
    hueStart: real,
    layers: real,
    light: real,
    lightIncrement: real,
    offset: real,
    offsetIncrement: real,
    sat: real,
    segments: real,
    wl: real)

  /** A number with no fractional part. */
  predicate IsWhole(x: real)
  {
    x.Floor as real == x
  }

  /** The values in `KeysReference` order. */
  function Fields(v: Values): (f: seq<real>)
    ensures |f| == |KeysReference|
  {
    [v.ampl, v.hueIncrement, v.hueStart, v.layers, v.light, v.lightIncrement,
     v.offset, v.offsetIncrement, v.sat, v.segments, v.wl]
  }

  /** The object literal holding the values under their keys. */
  function ToObject(v: Values): (obj: map<string, real>)
    ensures forall k :: k in obj <==> k in KeysReference
    ensures forall i :: 0 <= i < |KeysReference| ==> obj[KeysReference[i]] == Fields(v)[i]
  {
    KeysDistinct();
    map i | 0 <= i < |KeysReference| :: KeysReference[i] := Fields(v)[i]
  }

  /** `const { segments, layers, ... } = values`: read each key of the object. */
  function FromObject(obj: map<string, real>): (v: Values)
    requires HasKeys(obj)
    ensures forall i :: 0 <= i < |KeysReference| ==> Fields(v)[i] == obj[KeysReference[i]]
  {
    var k := KeysReference;
    Values(obj[k[0]], obj[k[1]], obj[k[2]], obj[k[3]], obj[k[4]], obj[k[5]],
           obj[k[6]], obj[k[7]], obj[k[8]], obj[k[9]], obj[k[10]])
  }

  /** Reading back the object literal gives the values. */
  lemma FromToObject(v: Values)
    ensures HasKeys(ToObject(v)) && FromObject(ToObject(v)) == v
  {
  }

  /** An object with exactly the eleven keys is the literal of the values read from it. */
  lemma ToFromObject(obj: map<string, real>)
    requires forall k :: k in obj <==> k in KeysReference
    ensures HasKeys(obj) && ToObject(FromObject(obj)) == obj
  {
    var back := ToObject(FromObject(obj));
    forall k | k in obj ensures k in back && back[k] == obj[k] {
      var i :| 0 <= i < |KeysReference| && KeysReference[i] == k;
    }
  }
}
