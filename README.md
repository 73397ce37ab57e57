# Wave wallpaper: a Dafny model

`wallpaper.js` draws a wallpaper of stacked, filled sine-wave bands on a 3840 by
2160 canvas. Eleven numbers describe a wallpaper: how many layers there are,
how many segments each wave has, the wavelength, amplitude and phase of the
waves, and the base colour with its per-layer steps. Those numbers come from
one of two places:

- a `share` query parameter holding a base64 token of the numbers, joined with
  commas in a fixed key order (`keysReference`);
- `generateValues`, from fresh `Math.random()` draws.

After drawing, `draw` encodes the values it used into a new token for the share
link, so the same wallpaper can be opened again later.

The model has these modules:

- `Wrappers`: `Option`, `Result`, and the two exceptions the code can raise,
  `InvalidCharacterError` from `btoa`/`atob` and `TypeError` from reading
  `.length` of a null `match`.
- `Text`: counting a character, `split` on one character, and joining with a
  separator, with the lemmas that `split` undoes `join` and `join` undoes
  `split`.
- `Base64`: the part of `btoa` and `atob` that the codec relies on, on strings
  whose code units fit in a byte. That covers the 6-bit groups, padding, and
  the whitespace and padding that `atob` tolerates. The key lemma is that
  `atob(btoa(s)) == s`.
- `Parameters`: the key order, the parameter object as a map from key to
  number (`ToObject`/`FromObject`), and the eleven values as a record.
- `Codec`: `encodeValues` and `getValuesFromBase64`. The number type is generic,
  and printing and `Number(...)` are the parameters `format` and `parse`.
- `Generator`: `generateValues`, over an injected stream of draws in [0, 1).
- `Render`: the background and layer loops of `draw`, as imperative methods on
  a `Canvas` whose only state is the log of calls made on it. `Math.sin` is an
  uninterpreted function parameter.
- `Wallpaper`: `getDataFromUrl` with the `share` parameter as an input, the
  `??` fallback, and `draw` itself, which returns the share token.

Some behaviour of `wallpaper.js` that the model keeps as written:

- Each sample's y is `startY + ampl·sin((layerOffset + x)/wl)`, so the wave is
  displaced from the band centre twice: once in `startY` and once per sample.
- Only an 11-field token (ten commas) is accepted. Width and height are never
  part of the token.
- A field that is not numeric is not rejected. It becomes whatever
  `Number(...)` makes of it (`parse`).
- A decoded text without any comma makes `data.match(/,/g)` null, and reading
  its length throws a `TypeError`. This is a distinct outcome, not the null of
  the wrong-count check. The empty token is one such case.
- The ranges are those of `generateValues`: wavelength divisor `5 + 15·r`,
  saturation 15 to 50, lightness 15 to 60, hue step in (-20, 20], and lightness
  step of magnitude in [2, 6).

## Model

| member | source | states |
|---|---|---|
| Parameters.KeysDistinct | wallpaper.js:5-17 | the reference order lists eleven keys, none twice |
| Parameters.ToObject | wallpaper.js:29-41 | the object literal has exactly the eleven keys, and the key at position i holds the i-th field |
| Parameters.FromObject | wallpaper.js:54-66 | destructuring reads the i-th field from the key at position i |
| Parameters.FromToObject | wallpaper.js:54-66 | destructuring the object literal of some values gives back those values |
| Parameters.ToFromObject | wallpaper.js:54-66 | an object with exactly the eleven keys is the literal of the values destructured from it |
| Codec.EncodeValues | wallpaper.js:118-123 | encoding succeeds exactly when the joined text has only byte-sized code units, otherwise throws `InvalidCharacterError`; on success `atob` of the token is the joined text |
| Codec.JoinFrom | wallpaper.js:119-121 | the `reduce` from key i onward appends to the accumulated text the printed values from i, separated by single commas, and after the last key appends nothing |
| Codec.JoinedValues | wallpaper.js:119-121 | the text handed to `btoa` is the printed values in key order, joined with single commas |
| Codec.EncodingOrder | wallpaper.js:119-121 | if no printed value holds a comma, the joined text has exactly ten commas and splits back into the printed values in key order |
| Codec.MapFrom | wallpaper.js:137-140 | the `reduce` adds exactly the remaining keys, each set to the parse of the piece at its position, and keeps the other entries |
| Codec.GetValuesFromBase64 | wallpaper.js:129-142 | an `atob` failure throws `InvalidCharacterError`; no comma throws `TypeError`; a comma count other than ten gives null; ten commas give an object |
| Codec.DecodedPositions | wallpaper.js:136-141 | a decoded object comes from text with ten commas, has exactly the eleven keys, and the key at position i holds the parse of the i-th piece |
| Codec.MapFromAll | wallpaper.js:137-140 | the whole `reduce` from the empty object gives exactly the keys, each with the parse of its piece |
| Codec.DecodedKeys | wallpaper.js:137-141 | a decoded object has exactly the eleven keys |
| Codec.EmptyTokenThrows | wallpaper.js:130-132 | decoding the empty token throws `TypeError`, because its text has no comma |
| Codec.Latin1Join | wallpaper.js:119-122 | joining byte-sized pieces with commas gives byte-sized text, which `btoa` accepts |
| Codec.EncodedText | wallpaper.js:118-136 | for comma-free, byte-sized printed values the token exists, and `atob` turns it into text with ten commas that splits into the printed values |
| Codec.RoundTrip | wallpaper.js:118-142 | when every printed value is comma-free and byte-sized, the token decodes to an object with exactly the eleven keys, each holding the parse of its printed value |
| Codec.RoundTripIdentity | wallpaper.js:118-142 | when, in addition, parsing undoes printing, the token decodes to the very same object |
| Codec.SameOnKeys | wallpaper.js:137-140 | two objects with exactly the listed keys that agree on every key are equal |
| Base64.Encode | wallpaper.js:122 | the 6-bit values of some bytes are all below 64, and their count is what `btoa` pads to a multiple of four |
| Base64.Decode | wallpaper.js:130 | decoding 6-bit values whose count does not leave a single one over gives values below 256 |
| Base64.EncodeRoundTrip | wallpaper.js:122 | decoding the 6-bit values of some bytes gives back the bytes |
| Base64.Padding | wallpaper.js:122 | the padding is at most two characters, all `=`, and the byte count plus the padding length is a multiple of three (two `=` after one left-over byte, one after two) |
| Base64.Btoa | wallpaper.js:122 | `btoa` succeeds exactly on byte-sized text, otherwise throws `InvalidCharacterError`, and its output length is a multiple of four |
| Base64.Atob | wallpaper.js:130 | `atob` succeeds exactly when the input, with whitespace and final padding removed, is in the alphabet and does not leave a single character over; the result is byte-sized |
| Base64.RemoveWhitespace | wallpaper.js:130 | `atob` drops exactly the ASCII whitespace: the result has none, a character occurs in it exactly when it occurs in the input and is not whitespace, and a single character is dropped when it is whitespace and kept otherwise |
| Base64.RemoveWhitespaceConcat | wallpaper.js:130 | whitespace removal distributes over concatenation, so it works character by character and keeps the other characters in their order and with their counts |
| Base64.StripPadding | wallpaper.js:130 | `atob` keeps a prefix and removes only `=`; for an input whose length is a multiple of four it removes two characters when the last two are `=`, one when only the last is, and none otherwise; any other input is left unchanged |
| Base64.AtobBtoa | wallpaper.js:122-130 | `atob(btoa(s)) == s` for every byte-sized `s` |
| Text.Count | wallpaper.js:132 | the number of commas is zero exactly when there is no comma, which is when `match` returns null |
| Text.Split | wallpaper.js:136 | `split` gives one more piece than there are separators, and no piece contains the separator |
| Text.CountJoin | wallpaper.js:132 | joining n separator-free pieces gives n - 1 separators |
| Text.SplitJoin | wallpaper.js:136 | splitting undoes joining separator-free pieces |
| Text.JoinSplit | wallpaper.js:136 | joining undoes splitting |
| Generator.FewSegments | wallpaper.js:24 | a few-segment count is a whole number from 1 to 9 |
| Generator.Wavelength | wallpaper.js:26 | for a positive width, the wavelength is above a twentieth of the width and at most a fifth |
| Generator.LayerNumber | wallpaper.js:32 | the layer count is a whole number from 3 to 12 |
| Generator.Amplitude | wallpaper.js:35 | for a positive wavelength, the amplitude is at least a tenth of it and below it |
| Generator.Offset | wallpaper.js:36 | for a positive width, the first phase is in [0, width) |
| Generator.OffsetIncrement | wallpaper.js:37 | for a positive width, the phase step is in [width/20, 3·width/20) |
| Generator.LightIncrement | wallpaper.js:40 | the lightness step is in [2, 6) when the sign draw is below 0.5, otherwise in (-6, -2] |
| Generator.GenerateValues | wallpaper.js:22-42 | every generated field is in its range: segments 200 or a whole 1..9, layers a whole 3..12, hue start in [0, 360), hue step in (-20, 20], saturation in [15, 50), lightness in [15, 60), a lightness step of magnitude [2, 6); for a positive width, also the wavelength, amplitude, phase and phase-step bounds |
| Render.Canvas.constructor | wallpaper.js:49 | a fresh context has an empty call log |
| Render.Canvas.SetFillStyle | wallpaper.js:69 | setting the fill colour appends exactly that call to the log |
| Render.Canvas.FillRect | wallpaper.js:70 | `fillRect` appends exactly that call |
| Render.Canvas.BeginPath | wallpaper.js:78 | `beginPath` appends exactly that call |
| Render.Canvas.MoveTo | wallpaper.js:82 | `moveTo` appends exactly that call |
| Render.Canvas.LineTo | wallpaper.js:85 | `lineTo` appends exactly that call |
| Render.Canvas.Fill | wallpaper.js:90 | `fill` appends exactly that call |
| Render.LayerCount | wallpaper.js:73 | the outer loop runs as many times as there are layers, for a whole, non-negative layer count |
| Render.LayerPass | wallpaper.js:73 | the outer loop runs pass l exactly when l < layers |
| Render.SampleCount | wallpaper.js:83 | the inner loop runs segments + 1 times, for a whole, non-negative segment count |
| Render.SamplePass | wallpaper.js:83 | the inner loop runs pass i exactly when i <= segments |
| Render.SamplesStep | wallpaper.js:83-86 | one more pass of the inner loop appends one more sample |
| Render.BeginLayer | wallpaper.js:74-82 | a layer opens with its colour (hue `hueStart + (l+1)·hueIncrement`, lightness `light + (l+1)·lightIncrement`), a new path and a move to (0, startY); it returns startY (band centre `(l+0.5)·height/layers` plus the wave at phase `offset + offsetIncrement·l`) and that phase |
| Render.TraceWave | wallpaper.js:83-86 | the inner loop appends one `lineTo` per sample, in order, with x = i·width/segments and y = startY plus the wave at phase + x |
| Render.CloseLayer | wallpaper.js:87-90 | a layer closes with the bottom-right corner, the bottom-left corner, the starting point, and a fill |
| Render.DrawLayer | wallpaper.js:73-91 | one pass of the outer loop appends exactly the calls of layer l after those of layers 0 .. l-1 |
| Render.DrawPicture | wallpaper.js:68-91 | drawing appends the background fill rectangle in the base colour, then the calls of every layer in order, and nothing else |
| Render.SamplesArePath | wallpaper.js:83-86 | n passes of the inner loop make n path points |
| Render.LayerLength | wallpaper.js:74-90 | a layer makes SampleCount + 7 calls |
| Render.LayerShape | wallpaper.js:74-90 | the exact layout of a layer: colour, new path, move to (0, startY), the samples in order, (width, height), (0, height), back to (0, startY), fill |
| Render.LayerPathCount | wallpaper.js:82-89 | a layer makes SampleCount + 4 path calls, which is segments + 5 for a whole segment count |
| Render.SampleXs | wallpaper.js:83-84 | sample x values start at 0, increase strictly, stay within [0, width], and the last is the width when the segment count is whole |
| Render.LayersPrefix | wallpaper.js:73-91 | later passes of the outer loop only append: the calls of the first m layers are a prefix of those of the first n |
| Render.LayersInOrder | wallpaper.js:73-91 | the calls of layer l sit right after those of layers 0 .. l-1 in the calls of any longer run |
| Render.LayersLength | wallpaper.js:73-91 | n layers make n·(SampleCount + 7) calls |
| Render.Drawing | wallpaper.js:68-91 | the drawing begins with the background: the base colour, then a rectangle over the whole canvas |
| Render.DrawingLength | wallpaper.js:68-91 | the drawing is 2 + layers·(SampleCount + 7) calls long |
| Render.DrawingLayer | wallpaper.js:73-91 | for every l below the layer count, the l-th block of the drawing after the background is exactly the calls of layer l |
| Wallpaper.GetDataFromUrl | wallpaper.js:149-157 | an absent or empty share gives null; any other share gives the decoded result |
| Wallpaper.SelectValues | wallpaper.js:53 | a decoding failure comes out as the same exception (`InvalidCharacterError` from `atob`, `TypeError` from the comma check); a decoded object is selected as it is; null falls back on the generated values; a selected object always has exactly the eleven keys |
| Wallpaper.Draw | wallpaper.js:47-94 | after an exception while decoding, the canvas is untouched; otherwise the canvas receives exactly the drawing of the selected values, and the token is the encoding of those values |
| Wallpaper.AbsentShareGenerates | wallpaper.js:53 | without a share (absent or empty) the generated values are drawn, and they can always be drawn |
| Wallpaper.ShareSelects | wallpaper.js:152-156 | when each of the object's eleven numbers prints comma-free and byte-sized and parses back to itself, the token of an object with exactly the eleven keys, given as the share, selects that object whatever the random draws are |
| Wallpaper.ShareReproduces | wallpaper.js:103-106 | when each generated number prints comma-free and byte-sized and parses back to itself, the share token of a generated wallpaper, opened later with other random draws, selects the same values again, so the same drawing follows |

## Left out

- Render.DrawPicture: requires that, when any layer is drawn, neither the segment count nor the wavelength is zero. Dividing by zero gives Infinity and NaN in JavaScript, and those are not modelled.
- Wallpaper.Draw: requires the selected values to be drawable in the same sense (shared values with zero segments or a zero wavelength are not covered), for the same reason.
- Floating point: all arithmetic is exact on `real`, and `Math.floor` is `Floor`, so the rounding of IEEE doubles is not modelled. NaN and the infinities cannot be values.
- Printing numbers and `Number(...)`: these are the parameters `format` and `parse`. The round-trip lemmas state outright, for the eleven values at hand, the assumptions they need (comma-free, byte-sized, parse undoes format).
- `Math.sin`: it is the uninterpreted parameter `sin`, so nothing about the wave's shape in y is proved beyond its formula.
- `Math.random()`: it is an injected stream `rand`, with draw i at `rand(i)`, every draw in [0, 1). The draws are taken in the order of the object literal.
- The DOM: `addEventListener` (line 1), `querySelector` and `getContext` (48-49), `toDataURL` and `setLinks` (93, 99-111) are not part of this model. `Draw` returns the token that `setLinks` would put into the share link.
- The query string: `URLSearchParams` and `window.location` (150-152) are not part of this model. The share is given already decoded as `Option<string>`, so the way a query string turns `+` into a space before `atob` sees it is not modelled.
- The CSS colour string: `SetFillStyle` records the hue, saturation and lightness numbers, not the `'hsl( ... )'` text or how the browser parses it.
- Rasterisation: what `fill` paints on the pixels is not modelled. Only the sequence of calls on the context is.
- Base64: `btoa` and `atob` are modelled on text whose code units are below 256 (0xFF at most). Texts that `btoa` rejects only throw, as in the browser.
