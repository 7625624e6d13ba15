/**
 * `ItemFieldsHandler` as the spider imports it (spiders/item_fields_handler.py):
 * `clear_string`, the strip-only `convert_string_to_float`, and `deserialize`.
 *
 * The library calls are not modelled; they enter as the fields of a `Lib` value:
 * `unquotePlus` is `urllib.parse.unquote_plus`, and `toFloat` is `float()` on a
 * string, `None` where `float()` raises `ValueError`.
 */
module Handler {
  import opened Wrappers
  import opened PyText

  /** The exceptions the scraper's own code raises. */
  datatype Error =
    | TypeError             // a normaliser was given something that is not a `str`
    | ValueConversionError  // `deserialize` got `None` or text that is not JSON
    | AttributeError        // `.get('html')` on a JSON value that is not an object
    | UnicodeDecodeError    // `json.loads` could not decode `bytes`; `deserialize` does not catch it

  /**
   * A Python argument as far as the type checks care: a `str`, a `bytes` or `bytearray`,
   * `None`, or anything else.
   */
  datatype PyValue = Str(s: string) | Bytes(data: seq<bv8>) | NoneValue | OtherValue

  /** The library functions the handlers call, as uninterpreted functions. */
  datatype Lib = Lib(unquotePlus: string -> string, toFloat: string -> Option<real>)

  /** `clear_string` on a `str`: decode, then collapse whitespace. */
  function Clear(lib: Lib, s: string): (r: string)
    ensures Collapsed(r)
    ensures Split(r) == Split(lib.unquotePlus(s))
    ensures r == "" <==> AllSpace(lib.unquotePlus(s))
  {
    CollapseBlank(lib.unquotePlus(s));
    Collapse(lib.unquotePlus(s))
  }

  /** `clear_string(value)`: raises `TypeError` unless `value` is a `str`. */
  function ClearString(lib: Lib, value: PyValue): (r: Result<string, Error>)
    ensures r.Failure? <==> !value.Str?
    ensures r.Failure? ==> r.error == TypeError
    ensures r.Success? ==> Collapsed(r.value) && Split(r.value) == Split(lib.unquotePlus(value.s))
  {
    match value
    case Str(s) => Success(Clear(lib, s))
    case _ => Failure(TypeError)
  }

  /**
   * `value.replace('$', '').strip()`: every `$` removed, whitespace trimmed at both ends,
   * and every other character kept, separators included.
   */
  function StripDollar(value: string): (r: string)
    ensures |r| <= |value|
    ensures forall k :: 0 <= k < |r| ==> r[k] != '$'
    ensures r == [] || (!IsSpace(r[0]) && !IsSpace(r[|r| - 1]))
  {
    var d := RemoveChar(value, '$');
    var r := Strip(d);
    var i := LeadingSpaces(d);
    assert forall k :: 0 <= k < |r| ==> r[k] == d[i + k];
    r
  }

  /**
   * `convert_string_to_float(value)`: `TypeError` for a non-`str`; otherwise the float
   * of the stripped text, or `None` (logged, not raised) when `float()` rejects it.
   */
  function ConvertStringToFloat(lib: Lib, value: PyValue): (r: Result<Option<real>, Error>)
    ensures r.Failure? <==> !value.Str?
    ensures r.Failure? ==> r.error == TypeError
    ensures r.Success? ==> (r.value.None? <==> lib.toFloat(StripDollar(value.s)).None?)
  {
    match value
    case Str(s) => Success(lib.toFloat(StripDollar(s)))
    case _ => Failure(TypeError)
  }

  /**
   * `deserialize(value)`. `loads` stands for `json.loads` on text, and `decode` for the
   * encoding detection and decoding `json.loads` applies to `bytes` first (`None` where that
   * raises `UnicodeDecodeError`, which `deserialize` lets through). `None` and any other
   * non-text value make `json.loads` raise `TypeError`, and text it rejects raises
   * `JSONDecodeError`; `deserialize` turns both into `ValueConversionError`.
   */
  function Deserialize<J>(loads: string -> Option<J>, decode: seq<bv8> -> Option<string>, value: PyValue)
    : (r: Result<J, Error>)
    ensures value.NoneValue? || value.OtherValue? ==> r == Failure(ValueConversionError)
    ensures value.Bytes? && decode(value.data).None? ==> r == Failure(UnicodeDecodeError)
    ensures var text := if value.Str? then Some(value.s) else if value.Bytes? then decode(value.data) else None;
      text.Some? ==>
        && (r.Success? <==> loads(text.value).Some?)
        && (r.Success? ==> loads(text.value) == Some(r.value))
        && (r.Failure? ==> r.error == ValueConversionError)
  {
    match value
    case Str(s) => if loads(s).Some? then Success(loads(s).value) else Failure(ValueConversionError)
    case Bytes(data) => (
      match decode(data)
      case None => Failure(UnicodeDecodeError)
      case Some(s) => if loads(s).Some? then Success(loads(s).value) else Failure(ValueConversionError))
    case _ => Failure(ValueConversionError)
  }

  /** Whitespace-only text clears to the empty string. */
  lemma ClearBlank(lib: Lib, s: string)
    requires AllSpace(lib.unquotePlus(s))
    ensures ClearString(lib, Str(s)) == Success("")
  {
  }

  /** The collapse step of `clear_string` is idempotent on already-decoded text. */
  lemma ClearCollapseIdempotent(lib: Lib, s: string)
    ensures Collapse(Clear(lib, s)) == Clear(lib, s)
  {
    CollapseIdempotent(lib.unquotePlus(s));
  }

  /**
   * The strip-only conversion rewrites no separator: apart from `$` and whitespace,
   * a character occurs in the text handed to `float()` exactly when it occurs in the input.
   */
  lemma StripDollarKeepsSeparators(value: string, c: char)
    requires c != '$' && !IsSpace(c)
    ensures c in StripDollar(value) <==> c in value
  {
    RemoveCharKeepsOthers(value, '$', c);
    StripKeepsNonSpace(RemoveChar(value, '$'), c);
  }
}
