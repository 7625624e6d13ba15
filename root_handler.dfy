/**
 * The separator-normalising `ItemFieldsHandler` of item_fields_handler.py. Its
 * `clear_string` and `deserialize` are the same code as the spider's copy, so this
 * module reuses `Handler.ClearString` and `Handler.Deserialize`; what differs is
 * `convert_string_to_float`, which rewrites a price such as "1.234,56" to "1234.56"
 * before handing it to `float()`.
 */
module RootHandler {
  import opened Wrappers
  import opened PyText
  import H = Handler

  predicate IsSep(c: char) {
    c == ',' || c == '.'
  }

  /** `s.replace('.', '').replace(',', '')`. */
  function Unsep(s: string): string {
    RemoveChar(RemoveChar(s, '.'), ',')
  }

  /** The form handed to `float()`: no `,`, no `$`, and at most one `.`. */
  predicate SingleDecimalPoint(r: string) {
    && (forall k :: 0 <= k < |r| ==> r[k] != ',' && r[k] != '$')
    && (forall j, k :: 0 <= j < k < |r| && r[j] == '.' ==> r[k] != '.')
  }

  predicate NoDollar(s: string) {
    forall k :: 0 <= k < |s| ==> s[k] != '$'
  }

  lemma UnsepClean(s: string)
    requires NoDollar(s)
    ensures forall k :: 0 <= k < |Unsep(s)| ==> !IsSep(Unsep(s)[k]) && Unsep(s)[k] != '$'
  {
    var t := RemoveChar(s, '.');
    RemoveCharKeepsOthers(s, '.', '$');
    RemoveCharKeepsOthers(t, ',', '$');
    RemoveCharKeepsOthers(t, ',', '.');
    assert '$' !in Unsep(s) && '.' !in Unsep(s);
  }

  lemma UnsepGlue(a: string, b: string)
    ensures Unsep(a + "$" + b) == Unsep(a) + "$" + Unsep(b)
  {
    assert RemoveChar("$", '.') == "$";
    assert RemoveChar("$", ',') == "$";
    RemoveCharConcat(a + "$", b, '.');
    RemoveCharConcat(a, "$", '.');
    var a', b' := RemoveChar(a, '.'), RemoveChar(b, '.');
    RemoveCharConcat(a' + "$", b', ',');
    RemoveCharConcat(a', "$", ',');
  }

  lemma ReplaceMark(x: string, y: string)
    requires '$' !in x && '$' !in y
    ensures ReplaceChar(x + "$" + y, '$', '.') == x + "." + y
  {
    ReplaceCharConcat(x + "$", y, '$', '.');
    ReplaceCharConcat(x, "$", '$', '.');
    ReplaceCharAbsent(x, '$', '.');
    ReplaceCharAbsent(y, '$', '.');
    assert ReplaceChar("$", '$', '.') == ".";
  }

  lemma PointShape(x: string, y: string)
    requires forall k :: 0 <= k < |x| ==> !IsSep(x[k]) && x[k] != '$'
    requires forall k :: 0 <= k < |y| ==> !IsSep(y[k]) && y[k] != '$'
    ensures SingleDecimalPoint(x + "." + y)
  {
    var r := x + "." + y;
    forall k | 0 <= k < |r| ensures r[k] != ',' && r[k] != '$' && (k != |x| ==> r[k] != '.') {
      if k < |x| { assert r[k] == x[k]; }
      else if k > |x| { assert r[k] == y[k - |x| - 1]; }
    }
  }

  /**
   * Lines 27/29 and 30 once the decimal position is known: `a + '$' + b` with `.` and `,`
   * removed and `$` turned into `.` is the separator-free `a`, a point, and the separator-free `b`.
   */
  function Glue(a: string, b: string): (r: string)
    requires NoDollar(a) && NoDollar(b)
    ensures r == Unsep(a) + "." + Unsep(b)
    ensures SingleDecimalPoint(r)
  {
    UnsepGlue(a, b);
    UnsepClean(a);
    UnsepClean(b);
    ReplaceMark(Unsep(a), Unsep(b));
    PointShape(Unsep(a), Unsep(b));
    ReplaceChar(Unsep(a + "$" + b), '$', '.')
  }

  /** Line 30 when no decimal position was found: every `.` and `,` removed. */
  function Plain(c: string): (r: string)
    requires NoDollar(c)
    ensures r == Unsep(c)
    ensures SingleDecimalPoint(r)
  {
    UnsepClean(c);
    ReplaceCharAbsent(Unsep(c), '$', '.');
    ReplaceChar(Unsep(c), '$', '.')
  }

  /** Lines 26-30 on the cleared text `c`, given the outcome of the two separator tests. */
  function Rewrite(c: string, at3: bool, at2: bool): (r: string)
    requires NoDollar(c)
    requires (at3 ==> |c| >= 3) && (at2 ==> |c| >= 2)
    ensures SingleDecimalPoint(r)
    ensures var n := |c|;
      if at3 then r == Unsep(c[..n - 3]) + "." + Unsep(c[n - 2..])
      else if at2 then r == Unsep(c[..n - 2]) + "." + Unsep(c[n - 1..])
      else r == Unsep(c)
  {
    var n := |c|;
    if at3 then Glue(c[..n - 3], c[n - 2..])
    else if at2 then Glue(c[..n - 2], c[n - 1..])
    else Plain(c)
  }

  /**
   * The string `convert_string_to_float` hands to `float()`, as the code is written: the
   * separator test looks at the ORIGINAL value's third- and second-to-last characters,
   * while the slicing works on the `$`-stripped, trimmed value.
   */
  function NormalizePrice(value: string): (r: string)
    ensures SingleDecimalPoint(r)
    ensures var c := H.StripDollar(value); var n := |c|;
      if n >= 3 && IsSep(value[|value| - 3]) then r == Unsep(c[..n - 3]) + "." + Unsep(c[n - 2..])
      else if n >= 2 && IsSep(value[|value| - 2]) then r == Unsep(c[..n - 2]) + "." + Unsep(c[n - 1..])
      else r == Unsep(c)
  {
    var c := H.StripDollar(value);
    var n := |c|;
    Rewrite(c, n >= 3 && IsSep(value[|value| - 3]), n >= 2 && IsSep(value[|value| - 2]))
  }

  /** `convert_string_to_float(value)`: `TypeError` for a non-`str`, else `float()` of the normalised text. */
  function ConvertStringToFloat(lib: H.Lib, value: H.PyValue): (r: Result<Option<real>, H.Error>)
    ensures r.Failure? <==> !value.Str?
    ensures r.Failure? ==> r.error == H.TypeError
    ensures r.Success? ==> SingleDecimalPoint(NormalizePrice(value.s))
    ensures r.Success? ==> (r.value.None? <==> lib.toFloat(NormalizePrice(value.s)).None?)
  {
    match value
    case Str(s) => Success(lib.toFloat(NormalizePrice(s)))
    case _ => Failure(H.TypeError)
  }

  /** The evident intent: test the cleared value, the one that is sliced. */
  function NormalizePriceIntended(value: string): (r: string)
    ensures SingleDecimalPoint(r)
    ensures var c := H.StripDollar(value); var n := |c|;
      if n >= 3 && IsSep(c[n - 3]) then r == Unsep(c[..n - 3]) + "." + Unsep(c[n - 2..])
      else if n >= 2 && IsSep(c[n - 2]) then r == Unsep(c[..n - 2]) + "." + Unsep(c[n - 1..])
      else r == Unsep(c)
  {
    var c := H.StripDollar(value);
    var n := |c|;
    Rewrite(c, n >= 3 && IsSep(c[n - 3]), n >= 2 && IsSep(c[n - 2]))
  }

  /** With the intended test, a `$` anywhere, trailing ones included, never changes the result. */
  lemma {:induction false} IntendedIgnoresDollar(a: string, b: string)
    ensures NormalizePriceIntended(a + "$" + b) == NormalizePriceIntended(a + b)
  {
    RemoveCharConcat(a + "$", b, '$');
    RemoveCharConcat(a, "$", '$');
    RemoveCharConcat(a, b, '$');
    assert RemoveChar("$", '$') == "";
    assert RemoveChar(a, '$') + "" == RemoveChar(a, '$');
  }

  /**
   * `clear_string` is not idempotent: `unquote_plus` decodes again on every call, so
   * "%2520" clears to "%20" and then to "".
   */
  lemma ClearStringNotIdempotent(lib: H.Lib)
    requires lib.unquotePlus("%2520") == "%20" && lib.unquotePlus("%20") == " "
    ensures H.ClearString(lib, H.Str("%2520")) == Success("%20")
    ensures H.ClearString(lib, H.Str("%20")) == Success("")
  {
    var s := "%20";
    assert WordEnd(s) == 3;
    assert s[..3] == s && s[3..] == [];
    assert Split(s) == [s];
    H.ClearBlank(lib, "%20");
  }
}

/**
 * Worked inputs for the separator-normalising `convert_string_to_float`: the spellings
 * the site uses, and the trailing-`$` input on which the code as written and the
 * intended rule disagree.
 */
module RootHandlerExamples {
  import opened PyText
  import opened RootHandler
  import H = Handler

  /** A price with no `$` and no surrounding whitespace is cleared to itself. */
  lemma StripDollarPlain(s: string)
    requires NoDollar(s) && s != [] && !IsSpace(s[0]) && !IsSpace(s[|s| - 1])
    ensures H.StripDollar(s) == s
  {
    RemoveCharKeeps(s, '$');
  }

  lemma UnsepDigits(s: string)
    requires forall k :: 0 <= k < |s| ==> IsDigit(s[k])
    ensures Unsep(s) == s
  {
    RemoveCharKeeps(s, '.');
    RemoveCharKeeps(s, ',');
  }

  /** A `$`-free, trimmed price with a separator third from the end. */
  lemma ThreeFromEnd(v: string)
    requires H.StripDollar(v) == v && |v| >= 3 && IsSep(v[|v| - 3])
    ensures NormalizePrice(v) == Unsep(v[..|v| - 3]) + "." + Unsep(v[|v| - 2..])
  {
  }

  /** A price with a separator second from the end and none third from the end. */
  lemma TwoFromEnd(v: string)
    requires H.StripDollar(v) == v && |v| >= 2 && IsSep(v[|v| - 2])
    requires |v| < 3 || !IsSep(v[|v| - 3])
    ensures NormalizePrice(v) == Unsep(v[..|v| - 2]) + "." + Unsep(v[|v| - 1..])
  {
  }

  /** Removing a character absent from both sides of `x` acts on `x` alone. */
  lemma RemoveAround(head: string, x: char, tail: string, c: char)
    requires c !in head && c !in tail
    ensures RemoveChar(head + [x] + tail, c) == head + RemoveChar([x], c) + tail
  {
    RemoveCharConcat(head + [x], tail, c);
    RemoveCharConcat(head, [x], c);
    RemoveCharKeeps(head, c);
    RemoveCharKeeps(tail, c);
  }

  lemma UnsepThousands(head: string, sep: char, tail: string)
    requires sep == '.' || sep == ','
    requires forall k :: 0 <= k < |head| ==> IsDigit(head[k])
    requires forall k :: 0 <= k < |tail| ==> IsDigit(tail[k])
    ensures Unsep(head + [sep] + tail) == head + tail
  {
    assert '.' !in head && ',' !in head by {
      forall k | 0 <= k < |head| ensures head[k] != '.' && head[k] != ',' {
        assert IsDigit(head[k]);
      }
    }
    assert '.' !in tail && ',' !in tail by {
      forall k | 0 <= k < |tail| ensures tail[k] != '.' && tail[k] != ',' {
        assert IsDigit(tail[k]);
      }
    }
    RemoveAround(head, sep, tail, '.');
    if sep == '.' {
      assert RemoveChar([sep], '.') == [];
      assert head + [] + tail == head + tail;
      RemoveCharKeeps(head + tail, ',');
    } else {
      assert RemoveChar([sep], '.') == [sep];
      RemoveAround(head, sep, tail, ',');
      assert RemoveChar([sep], ',') == [];
      assert head + [] + tail == head + tail;
    }
  }

  /**
   * Grouped thousands with a decimal separator, whichever of '.' and ',' each one is:
   * "1.234,56" and "1,234.56" both become "1234.56".
   */
  lemma NormalizeGroupedThousands(group: char, point: char, v: string)
    requires IsSep(group) && IsSep(point)
    requires v == "1" + [group] + "234" + [point] + "56"
    ensures NormalizePrice(v) == "1234.56"
  {
    var head, frac := v[..5], v[6..];
    assert |v| == 8 && IsSep(v[5]);
    assert head == "1" + [group] + "234" && frac == "56";
    StripDollarPlain(v);
    UnsepThousands("1", group, "234");
    UnsepDigits(frac);
    ThreeFromEnd(v);
  }

  /** A plain decimal is kept: "1234.56" stays "1234.56". */
  lemma NormalizePlainDecimal(v: string)
    requires v == "1234.56"
    ensures NormalizePrice(v) == v
  {
    var head, frac := v[..4], v[5..];
    assert |v| == 7 && IsSep(v[4]) && head == "1234" && frac == "56";
    StripDollarPlain(v);
    UnsepDigits(head);
    UnsepDigits(frac);
    ThreeFromEnd(v);
    assert head + "." + frac == v;
  }

  /** A separator second from the end keeps one fractional digit: "12,5" becomes "12.5". */
  lemma NormalizeOneFractionDigit(v: string)
    requires v == "12,5"
    ensures NormalizePrice(v) == "12.5"
  {
    OneFractionPieces(v);
    TwoFromEnd(v);
    UnsepDigits("12");
    UnsepDigits("5");
    assert "12" + "." + "5" == "12.5";
  }

  lemma OneFractionPieces(v: string)
    requires v == "12,5"
    ensures H.StripDollar(v) == v && |v| == 4 && IsSep(v[2]) && !IsSep(v[1])
    ensures v[..2] == "12" && v[3..] == "5"
  {
    StripDollarPlain(v);
  }

  lemma StripTrailingDollar(v: string)
    requires v == "12,50$"
    ensures H.StripDollar(v) == "12,50"
  {
    var c := "12,50";
    assert v == c + "$";
    RemoveCharConcat(c, "$", '$');
    assert RemoveChar("$", '$') == "";
    RemoveCharKeeps(c, '$');
    assert c + "" == c;
    StripDollarPlain(c);
  }

  /** As written, a trailing `$` hides the decimal comma and "12,50$" becomes "1250". */
  lemma TrailingDollarLosesDecimal(v: string)
    requires v == "12,50$"
    ensures NormalizePrice(v) == "1250"
  {
    StripTrailingDollar(v);
    assert !IsSep(v[3]) && !IsSep(v[4]);
    UnsepThousands("12", ',', "50");
    assert "12" + [','] + "50" == "12,50";
  }

  /** The intended normaliser reads "12,50$" as 12.50. */
  lemma IntendedTrailingDollar(v: string)
    requires v == "12,50$"
    ensures NormalizePriceIntended(v) == "12.50"
  {
    StripTrailingDollar(v);
    var c := "12,50";
    var head, frac := c[..2], c[3..];
    assert IsSep(c[2]) && !IsSep(c[1]) && head == "12" && frac == "50";
    UnsepDigits(head);
    UnsepDigits(frac);
  }
}
