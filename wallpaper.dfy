/**
 * `getDataFromUrl` and `draw`: the values come from the `share` query parameter
 * when it decodes to an object, and from `generateValues` otherwise (`??` falls
 * back on null); the canvas is 3840 by 2160; the result is the share token.
 */
module Wallpaper {
  import opened Wrappers
  import opened Parameters
  import opened Codec
  import Base64
  import Generator
  import Render

  const Width: real := 3840.0
  const Height: real := 2160.0

  /**
   * `getDataFromUrl`, with the `share` query parameter as an input: absent (null)
   * and empty both count as no share.
   */
  function GetDataFromUrl<N>(share: Option<string>, parse: string -> N): (r: Result<Option<map<string, N>>, Exception>)
    ensures share == None || share == Some("") ==> r == Success(None)
    ensures share.Some? && share.value != "" ==> r == GetValuesFromBase64(share.value, parse)
  {
    match share
    case None => Success(None)
    case Some(s) => if s == "" then Success(None) else GetValuesFromBase64(s, parse)
  }

  /** `getDataFromUrl() ?? generateValues(width)`; an exception while decoding propagates. */
  function SelectValues(share: Option<string>, rand: nat -> real, parse: string -> real)
    : (r: Result<map<string, real>, Exception>)
    requires Generator.InUnitInterval(rand)
    ensures r.Success? ==> forall k :: k in r.value <==> k in KeysReference
    ensures r.Success? ==> HasKeys(r.value)
    ensures r.Failure? <==> GetDataFromUrl(share, parse).Failure?
    ensures GetDataFromUrl(share, parse).Failure? ==>
              r == Failure(GetDataFromUrl(share, parse).error)
    ensures GetDataFromUrl(share, parse) == Success(None) ==>
              r == Success(ToObject(Generator.GenerateValues(Width, rand)))
    ensures GetDataFromUrl(share, parse).Success? && GetDataFromUrl(share, parse).value.Some? ==>
              r == Success(GetDataFromUrl(share, parse).value.value)
  {
    match GetDataFromUrl(share, parse)
    case Failure(e) => Failure(e)
    case Success(None) => Success(ToObject(Generator.GenerateValues(Width, rand)))
    case Success(Some(obj)) =>
      DecodedKeys(share.value, parse);
      Success(obj)
  }

  /**
   * `draw`: select the values, paint the background and the layers, and compute
   * the share token. An exception from `atob` or from the comma check leaves the
   * canvas untouched; one from `btoa` comes after the drawing.
   */
  method Draw(ctx: Render.Canvas, share: Option<string>, rand: nat -> real, parse: string -> real,
              format: real -> string, sin: real -> real)
    returns (token: Result<string, Exception>)
    requires Generator.InUnitInterval(rand)
    requires SelectValues(share, rand, parse).Success? ==>
               Render.Renderable(FromObject(SelectValues(share, rand, parse).value))
    modifies ctx
    ensures SelectValues(share, rand, parse).Failure? ==>
              token == Failure(SelectValues(share, rand, parse).error) && ctx.log == old(ctx.log)
    ensures SelectValues(share, rand, parse).Success? ==>
              var obj := SelectValues(share, rand, parse).value;
              && ctx.log == old(ctx.log) + Render.Drawing(FromObject(obj), Width, Height, sin)
              && token == EncodeValues(obj, format)
  {
    var selected := SelectValues(share, rand, parse);
    if selected.Failure? {
      return Failure(selected.error);
    }
    var values := FromObject(selected.value);
    Render.DrawPicture(ctx, values, Width, Height, sin);
    token := EncodeValues(selected.value, format);
  }

  /** Without a usable share the picture comes from the generator, whose values can always be drawn. */
  lemma AbsentShareGenerates(share: Option<string>, rand: nat -> real, parse: string -> real)
    requires Generator.InUnitInterval(rand)
    requires share == None || share == Some("")
    ensures SelectValues(share, rand, parse) == Success(ToObject(Generator.GenerateValues(Width, rand)))
    ensures Render.Renderable(FromObject(SelectValues(share, rand, parse).value))
    ensures FromObject(SelectValues(share, rand, parse).value) == Generator.GenerateValues(Width, rand)
  {
    FromToObject(Generator.GenerateValues(Width, rand));
  }

  /**
   * Sharing restores the values: when each of the eleven numbers prints as
   * comma-free text of byte-sized code units that `Number` reads back exactly,
   * the token of an object with exactly the eleven keys, given as `share`, selects
   * that same object, whatever the random draws are.
   */
  lemma ShareSelects(obj: map<string, real>, rand: nat -> real, parse: string -> real, format: real -> string)
    requires Generator.InUnitInterval(rand)
    requires forall k :: k in obj <==> k in KeysReference
    requires forall i :: 0 <= i < |KeysReference| ==>
               ',' !in format(obj[KeysReference[i]]) && Base64.IsLatin1(format(obj[KeysReference[i]]))
    requires forall i :: 0 <= i < |KeysReference| ==>
               parse(format(obj[KeysReference[i]])) == obj[KeysReference[i]]
    ensures HasKeys(obj) && EncodeValues(obj, format).Success?
    ensures SelectValues(Some(EncodeValues(obj, format).value), rand, parse) == Success(obj)
  {
    RoundTripIdentity(obj, format, parse);
    var token := EncodeValues(obj, format).value;
    EmptyTokenThrows(parse);
    assert token != "";
    assert GetDataFromUrl(Some(token), parse) == Success(Some(obj));
  }

  /**
   * The share link reproduces the wallpaper: the token of a generated wallpaper,
   * given as `share` on a later visit, selects the generated values again whatever
   * the later random draws are, so the same drawing follows.
   */
  lemma ShareReproduces(rand: nat -> real, later: nat -> real, parse: string -> real, format: real -> string)
    requires Generator.InUnitInterval(rand) && Generator.InUnitInterval(later)
    requires forall i :: 0 <= i < |KeysReference| ==>
               var x := Fields(Generator.GenerateValues(Width, rand))[i];
               ',' !in format(x) && Base64.IsLatin1(format(x)) && parse(format(x)) == x
    ensures var v := Generator.GenerateValues(Width, rand);
      var obj := ToObject(v);
      && HasKeys(obj)
      && EncodeValues(obj, format).Success?
      && SelectValues(Some(EncodeValues(obj, format).value), later, parse) == Success(obj)
      && FromObject(obj) == v
  {
    var v := Generator.GenerateValues(Width, rand);
    var obj := ToObject(v);
    FromToObject(v);
    assert forall i :: 0 <= i < |KeysReference| ==> obj[KeysReference[i]] == Fields(v)[i];
    ShareSelects(obj, later, parse, format);
  }
}
