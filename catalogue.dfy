/** The category page (src/pages/CategoryProducts.js): which products are
    listed for the `category_id` query parameter, and the heading above them.
    `parseInt` is modelled as ECMA-262 (section 19.2.5) specifies it for an
    absent radix, on integers of any size. */
module Catalogue {
  import opened Common

  // ---------------------------------------------------------------------------
  // parseInt

  const Minus: CodeUnit := 0x2D
  const PlusSign: CodeUnit := 0x2B
  const Zero: CodeUnit := 0x30

  /** The value of `c` as a digit in base `radix` (10 or 16), if it is one. */
  function DigitIn(c: CodeUnit, radix: nat): (d: Option<nat>)
    requires radix == 10 || radix == 16
    ensures d.Some? ==> d.value < radix
  {
    if 0x30 <= c <= 0x39 then Some(c as int - 0x30)
    else if radix == 16 && 0x41 <= c <= 0x46 then Some(c as int - 0x41 + 10)
    else if radix == 16 && 0x61 <= c <= 0x66 then Some(c as int - 0x61 + 10)
    else None
  }

  /** Length of the longest prefix of `s` made of base-`radix` digits. */
  function DigitRun(s: Utf16, radix: nat): (n: nat)
    requires radix == 10 || radix == 16
    ensures n <= |s|
    ensures forall i :: 0 <= i < n ==> DigitIn(s[i], radix).Some?
    ensures n < |s| ==> DigitIn(s[n], radix).None?
  {
    if s == [] || DigitIn(s[0], radix).None? then 0
    else
      var n := DigitRun(s[1..], radix);
      assert forall i :: 1 <= i < n + 1 ==> s[i] == s[1..][i - 1];
      n + 1
  }

  /** The number written by the digits `s` in base `radix`. */
  function DigitsValue(s: Utf16, radix: nat): nat
    requires radix == 10 || radix == 16
    requires forall i :: 0 <= i < |s| ==> DigitIn(s[i], radix).Some?
  {
    if s == [] then 0
    else DigitsValue(s[..|s| - 1], radix) * radix + DigitIn(s[|s| - 1], radix).value
  }

  /** The number after the sign: a "0x"/"0X" prefix selects base 16, and
      the longest run of digits that follows is the value; `None` when there
      are no digits. */
  function Magnitude(v: Utf16): Option<nat>
  {
    var hex := |v| >= 2 && v[0] == Zero && (v[1] == 0x78 || v[1] == 0x58);
    var radix := if hex then 16 else 10;
    var w := if hex then v[2..] else v;
    var n := DigitRun(w, radix);
    if n == 0 then None else Some(DigitsValue(w[..n], radix))
  }

  /** `parseInt(text)`: leading whitespace is skipped and one sign is read
      before the magnitude; no digits at all gives NaN. */
  function ParseIntText(text: Utf16): JsInt
  {
    var u := TrimStart(text);
    var negative := u != [] && u[0] == Minus;
    var v := if u != [] && (u[0] == Minus || u[0] == PlusSign) then u[1..] else u;
    var m := Magnitude(v);
    if m.None? then NaN else if negative then Int(0 - m.value) else Int(m.value)
  }

  /** `parseInt(category_id)` where the parameter may be absent: `null`
      reads as the text "null", which has no digits. */
  function ParseInt(param: Option<Utf16>): JsInt
  {
    match param
    case None => NaN
    case Some(text) => ParseIntText(text)
  }

  lemma {:induction false} DigitsValueIsDecimal(s: string)
    requires forall i :: 0 <= i < |s| ==> '0' <= s[i] <= '9'
    ensures forall i :: 0 <= i < |Units(s)| ==> DigitIn(Units(s)[i], 10).Some?
    ensures DigitsValue(Units(s), 10) == DecimalValue(s)
  {
    UnitsOfBmp(s);
    if s != [] {
      var init := s[..|s| - 1];
      var u := Units(s);
      DigitsValueIsDecimal(init);
      UnitsOfBmp(init);
      assert u[..|s| - 1] == Units(init);
      assert DigitIn(u[|s| - 1], 10).value == s[|s| - 1] as int - '0' as int;
      assert DigitsValue(u, 10) == DigitsValue(Units(init), 10) * 10 + DigitIn(u[|s| - 1], 10).value;
    }
  }

  predicate AllDecimal(d: Utf16) { forall i :: 0 <= i < |d| ==> DigitIn(d[i], 10).Some? }

  /** What may follow a number without changing how it reads: nothing, or a
      code unit that is neither a digit nor the "x" of a "0x" prefix. */
  predicate EndsNumber(tail: Utf16)
  {
    tail == [] || (DigitIn(tail[0], 10).None? && tail[0] != 0x78 && tail[0] != 0x58)
  }

  lemma {:induction false} MagnitudeOfDigits(d: Utf16, tail: Utf16)
    requires d != [] && AllDecimal(d)
    requires EndsNumber(tail)
    ensures Magnitude(d + tail) == Some(DigitsValue(d, 10))
  {
    var s := d + tail;
    assert s[0] == d[0];
    assert |d| >= 2 ==> s[1] == d[1];
    assert |d| == 1 && tail != [] ==> s[1] == tail[0];
    assert !(|s| >= 2 && s[0] == Zero && (s[1] == 0x78 || s[1] == 0x58));
    DigitRunOfAppend(d, tail);
    assert s[..|d|] == d;
  }

  /** Text that starts with neither whitespace nor a sign is read from its
      first code unit on. */
  lemma ParseUnsigned(text: Utf16)
    requires text != [] && !IsJsWhitespace(text[0]) && text[0] != Minus && text[0] != PlusSign
    ensures ParseIntText(text) == if Magnitude(text).None? then NaN else Int(Magnitude(text).value)
  {
    TrimStartUnchanged(text);
  }

  /** Text that starts with "-" reads as the negated magnitude after it. */
  lemma {:induction false} ParseNegative(rest: Utf16, m: nat)
    requires Magnitude(rest) == Some(m)
    ensures ParseIntText([Minus] + rest) == Int(0 - m)
  {
    var text := [Minus] + rest;
    assert text[0] == Minus && text[1..] == rest;
    TrimStartUnchanged(text);
  }

  /** A run of decimal digits followed by a non-digit reads as its value. */
  lemma {:induction false} ParseDigits(d: Utf16, tail: Utf16)
    requires d != [] && AllDecimal(d)
    requires EndsNumber(tail)
    ensures ParseIntText(d + tail) == Int(DigitsValue(d, 10))
  {
    MagnitudeOfDigits(d, tail);
    assert (d + tail)[0] == d[0];
    ParseUnsigned(d + tail);
  }

  /** A run of decimal digits with nothing after it has its value as magnitude. */
  lemma MagnitudeOfNumber(d: Utf16)
    requires d != [] && AllDecimal(d)
    ensures Magnitude(d) == Some(DigitsValue(d, 10))
  {
    assert d + [] == d;
    MagnitudeOfDigits(d, []);
  }

  /** A minus sign is one code unit. */
  lemma UnitsOfMinus(digits: string)
    ensures Units("-" + digits) == [Minus] + Units(digits)
  {
    var s := "-" + digits;
    assert s[0] == '-' && s[1..] == digits;
  }

  /** The spelling of a number is a non-empty run of decimal digits whose
      value is the number. */
  lemma SpellingDigits(m: nat)
    ensures Units(NatToString(m)) != [] && AllDecimal(Units(NatToString(m)))
    ensures DigitsValue(Units(NatToString(m)), 10) == m
  {
    DigitsValueIsDecimal(NatToString(m));
    DecimalValueOfNatToString(m);
  }

  lemma ParseNatSpelling(m: nat)
    ensures ParseIntText(Units(NatToString(m))) == Int(m)
    ensures ParseIntText([Minus] + Units(NatToString(m))) == Int(0 - m)
  {
    SpellingDigits(m);
    var d := Units(NatToString(m));
    assert d + [] == d;
    ParseDigits(d, []);
    MagnitudeOfNumber(d);
    ParseNegative(d, m);
  }

  /** Reading back a number's decimal spelling gives the number:
      `parseInt(String(n)) === n`. */
  lemma ParseIntOfSpelling(n: int)
    ensures ParseInt(Some(Units(IntToString(n)))) == Int(n)
  {
    if n < 0 {
      var m: nat := -n;
      assert IntToString(n) == "-" + NatToString(m);
      UnitsOfMinus(NatToString(m));
      ParseNatSpelling(m);
    } else {
      var m: nat := n;
      assert IntToString(n) == NatToString(m);
      ParseNatSpelling(m);
    }
  }

  /** Anything after the leading number is ignored: "12abc" reads as 12
      (but "0x1" is read in base 16). */
  lemma ParseIntIgnoresTail(n: nat, tail: Utf16)
    requires EndsNumber(tail)
    ensures ParseInt(Some(Units(NatToString(n)) + tail)) == Int(n)
  {
    var digits := NatToString(n);
    DigitsValueIsDecimal(digits);
    DecimalValueOfNatToString(n);
    ParseDigits(Units(digits), tail);
  }

  lemma {:induction false} DigitRunOfAppend(d: Utf16, tail: Utf16)
    requires forall i :: 0 <= i < |d| ==> DigitIn(d[i], 10).Some?
    requires tail == [] || DigitIn(tail[0], 10).None?
    ensures DigitRun(d + tail, 10) == |d|
  {
    if d != [] {
      assert (d + tail)[1..] == d[1..] + tail;
      DigitRunOfAppend(d[1..], tail);
    } else {
      assert d + tail == tail;
    }
  }

  // ---------------------------------------------------------------------------
  // The filter and the heading

  /** The fields of a product the page decides on. */
  datatype Product = Product(productId: int, categoryId: int, isSpecial: bool)

  datatype Category = Category(categoryId: int, categoryName: string)

  const AllParam: Utf16 := [0x41, 0x6C, 0x6C]                                // "All"
  const SpecialsParam: Utf16 := [0x53, 0x70, 0x65, 0x63, 0x69, 0x61, 0x6C, 0x73] // "Specials"

  /** The `filter` callback for the `category_id` parameter. */
  predicate Keeps(param: Option<Utf16>, p: Product)
  {
    if param == Some(AllParam) then true
    else if param == Some(SpecialsParam) then p.isSpecial
    else ParseInt(param) == Int(p.categoryId)
  }

  /** `filteredProducts`. */
  function FilteredProducts(products: seq<Product>, param: Option<Utf16>): (r: seq<Product>)
    ensures |r| <= |products|
  {
    if products == [] then []
    else (if Keeps(param, products[0]) then [products[0]] else []) + FilteredProducts(products[1..], param)
  }

  /** `xs` is `ys` with some elements left out, order kept. */
  predicate IsSublist(xs: seq<Product>, ys: seq<Product>)
    decreases |ys|
  {
    if xs == [] then true
    else if ys == [] then false
    else (xs[0] == ys[0] && IsSublist(xs[1..], ys[1..])) || IsSublist(xs, ys[1..])
  }

  /** The listed products are always the catalogue in its own order with
      some products left out. */
  lemma {:induction false} FilterIsSublist(products: seq<Product>, param: Option<Utf16>)
    ensures IsSublist(FilteredProducts(products, param), products)
  {
    if products != [] {
      FilterIsSublist(products[1..], param);
      var rest := FilteredProducts(products[1..], param);
      if Keeps(param, products[0]) {
        assert FilteredProducts(products, param) == [products[0]] + rest;
        assert ([products[0]] + rest)[1..] == rest;
      } else {
        assert FilteredProducts(products, param) == rest;
        if rest != [] {
          assert IsSublist(rest, products[1..]);
        }
      }
    }
  }

  /** A product is listed exactly when the callback keeps it. */
  lemma {:induction false} FilterMembers(products: seq<Product>, param: Option<Utf16>)
    ensures forall p :: p in FilteredProducts(products, param) <==> p in products && Keeps(param, p)
  {
    if products != [] {
      FilterMembers(products[1..], param);
      assert products == [products[0]] + products[1..];
    }
  }

  /** Filtering a catalogue split in two filters each part in turn. */
  lemma {:induction false} FilterAppend(a: seq<Product>, b: seq<Product>, param: Option<Utf16>)
    ensures FilteredProducts(a + b, param) == FilteredProducts(a, param) + FilteredProducts(b, param)
  {
    if a != [] {
      assert (a + b)[1..] == a[1..] + b;
      FilterAppend(a[1..], b, param);
    } else {
      assert a + b == b;
    }
  }

  /** Each kept product is listed as many times as the catalogue holds it,
      and a product the callback drops is not listed at all. */
  lemma {:induction false} FilterCounts(products: seq<Product>, param: Option<Utf16>, p: Product)
    ensures multiset(FilteredProducts(products, param))[p]
            == if Keeps(param, p) then multiset(products)[p] else 0
  {
    if products != [] {
      FilterCounts(products[1..], param, p);
      var head := if Keeps(param, products[0]) then [products[0]] else [];
      assert FilteredProducts(products, param) == head + FilteredProducts(products[1..], param);
      assert multiset(FilteredProducts(products, param))
             == multiset(head) + multiset(FilteredProducts(products[1..], param));
      assert products == [products[0]] + products[1..];
      assert multiset(products) == multiset([products[0]]) + multiset(products[1..]);
    }
  }

  /** "All" lists the whole catalogue in its order. */
  lemma {:induction false} AllListsEverything(products: seq<Product>)
    ensures FilteredProducts(products, Some(AllParam)) == products
  {
    if products != [] {
      AllListsEverything(products[1..]);
      assert products == [products[0]] + products[1..];
    }
  }

  /** "Specials" lists exactly the products on special. */
  lemma SpecialsListsSpecials(products: seq<Product>)
    ensures forall p :: p in FilteredProducts(products, Some(SpecialsParam))
                        <==> p in products && p.isSpecial
  {
    FilterMembers(products, Some(SpecialsParam));
  }

  /** Any other parameter lists exactly the products of the category its
      leading number names. */
  lemma ByCategoryId(products: seq<Product>, param: Option<Utf16>)
    requires param != Some(AllParam) && param != Some(SpecialsParam)
    ensures forall p :: p in FilteredProducts(products, param)
                        <==> p in products && ParseInt(param) == Int(p.categoryId)
  {
    FilterMembers(products, param);
  }

  /** A missing or non-numeric parameter lists nothing. */
  lemma {:induction false} NaNListsNothing(products: seq<Product>, param: Option<Utf16>)
    requires param != Some(AllParam) && param != Some(SpecialsParam)
    requires ParseInt(param).NaN?
    ensures FilteredProducts(products, param) == []
  {
    if products != [] {
      NaNListsNothing(products[1..], param);
    }
  }

  /** The name of the first category whose id is `id`, or "Unknown Category". */
  function NameOfId(categories: seq<Category>, id: JsInt): string
  {
    if categories == [] then "Unknown Category"
    else if id == Int(categories[0].categoryId) then categories[0].categoryName
    else NameOfId(categories[1..], id)
  }

  /** `getCategoryName(categoryId)`: `find` compares each category's id with
      `parseInt(categoryId)`, which is the same value every time. */
  function GetCategoryName(categories: seq<Category>, param: Option<Utf16>): string
  {
    NameOfId(categories, ParseInt(param))
  }

  lemma {:induction false} NameOfFirstMatch(categories: seq<Category>, id: JsInt, k: nat)
    requires k < |categories| && id == Int(categories[k].categoryId)
    requires forall j :: 0 <= j < k ==> id != Int(categories[j].categoryId)
    ensures NameOfId(categories, id) == categories[k].categoryName
  {
    if k > 0 {
      var rest := categories[1..];
      assert forall j :: 0 <= j < k - 1 ==> rest[j] == categories[j + 1];
      NameOfFirstMatch(rest, id, k - 1);
    }
  }

  lemma {:induction false} CategoryNameIsFirstMatch(categories: seq<Category>, param: Option<Utf16>, k: nat)
    requires k < |categories| && ParseInt(param) == Int(categories[k].categoryId)
    requires forall j :: 0 <= j < k ==> ParseInt(param) != Int(categories[j].categoryId)
    ensures GetCategoryName(categories, param) == categories[k].categoryName
  {
    NameOfFirstMatch(categories, ParseInt(param), k);
  }

  lemma {:induction false} NameOfNoMatch(categories: seq<Category>, id: JsInt)
    requires forall j :: 0 <= j < |categories| ==> id != Int(categories[j].categoryId)
    ensures NameOfId(categories, id) == "Unknown Category"
  {
    if categories != [] {
      var rest := categories[1..];
      assert forall j :: 0 <= j < |rest| ==> rest[j] == categories[j + 1];
      NameOfNoMatch(rest, id);
    }
  }

  lemma {:induction false} CategoryNameUnknown(categories: seq<Category>, param: Option<Utf16>)
    requires forall j :: 0 <= j < |categories| ==> ParseInt(param) != Int(categories[j].categoryId)
    ensures GetCategoryName(categories, param) == "Unknown Category"
  {
    NameOfNoMatch(categories, ParseInt(param));
  }

  /** The `<h2>` text after "Shop ". */
  function Heading(categories: seq<Category>, param: Option<Utf16>): string
  {
    if param == Some(AllParam) then "All Products"
    else if param == Some(SpecialsParam) then "Weekly Specials"
    else GetCategoryName(categories, param)
  }

  /** For a category id the heading names the first category with that id,
      and the page lists exactly the catalogue's products in that category. */
  lemma HeadingNamesListedCategory(categories: seq<Category>, products: seq<Product>, param: Option<Utf16>, k: nat)
    requires param != Some(AllParam) && param != Some(SpecialsParam)
    requires k < |categories| && ParseInt(param) == Int(categories[k].categoryId)
    requires forall j :: 0 <= j < k ==> ParseInt(param) != Int(categories[j].categoryId)
    ensures Heading(categories, param) == categories[k].categoryName
    ensures forall p :: p in FilteredProducts(products, param)
                        <==> p in products && p.categoryId == categories[k].categoryId
  {
    CategoryNameIsFirstMatch(categories, param, k);
    FilterMembers(products, param);
  }

  /** The two fixed parameters name themselves in the heading. */
  lemma FixedHeadings(categories: seq<Category>)
    ensures Heading(categories, Some(AllParam)) == "All Products"
    ensures Heading(categories, Some(SpecialsParam)) == "Weekly Specials"
  {
  }

  /** Without a parameter the heading is "Unknown Category" and the list is
      empty. */
  lemma NoParameter(categories: seq<Category>, products: seq<Product>)
    ensures Heading(categories, None) == "Unknown Category"
    ensures FilteredProducts(products, None) == []
  {
    CategoryNameUnknown(categories, None);
    NaNListsNothing(products, None);
  }
}
