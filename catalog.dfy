/**
 * The catalogue client of `api/airtable_tools.py`: how a product name is
 * cleaned, the Airtable `filterByFormula` strings the three lookups send,
 * how returned rows become product dictionaries, and how products are
 * rendered as Markdown.
 *
 * The HTTP request is a parameter (`Fetch`): a function from a formula and a
 * record cap to the rows returned, or to the reason the request raised.
 * Values are interpolated into the formulas between single quotes exactly as
 * the source does, without escaping; `QuotingIsExact` and the lemmas using
 * it state what that means for a value containing a quote.
 */
module Catalog {
  import opened Wrappers
  import opened Text
  import opened Json

  // ---------------------------------------------------------------------------
  // Name cleaning: re.sub(r"\s*\([^)]*\)", "", name).strip()

  /** How many whitespace characters `s` starts with: what `\s*` consumes. */
  function LeadingSpaces(s: string): (n: nat)
    ensures n <= |s|
    ensures forall i :: 0 <= i < n ==> IsSpace(Python, s[i])
    ensures n < |s| ==> !IsSpace(Python, s[n])
    decreases |s|
  {
    if s != [] && IsSpace(Python, s[0]) then 1 + LeadingSpaces(s[1..]) else 0
  }

  /** The first `)` in `s` at or after `from`: where `[^)]*\)` stops. */
  function CloseFrom(s: string, from: nat): (r: Option<nat>)
    ensures r.Some? ==> from <= r.value < |s| && s[r.value] == ')'
    ensures r.Some? ==> forall j :: from <= j < r.value ==> s[j] != ')'
    ensures r.None? ==> forall j :: from <= j < |s| ==> s[j] != ')'
    decreases |s| - from
  {
    if from >= |s| then None
    else if s[from] == ')' then Some(from)
    else CloseFrom(s, from + 1)
  }

  /**
   * The length of the match of `\s*\([^)]*\)` that starts at the front of
   * `s`, if one does: whitespace, an opening parenthesis, and everything up
   * to and including the first closing parenthesis after it.
   */
  function GroupAt(s: string): (r: Option<nat>)
    ensures r.Some? ==> 2 <= r.value <= |s|
  {
    var w := LeadingSpaces(s);
    if w < |s| && s[w] == '(' then
      match CloseFrom(s, w + 1)
      case Some(k) => Some(k + 1)
      case None => None
    else None
  }

  /**
   * `re.sub(r"\s*\([^)]*\)", "", s)`: scanning left to right, each match is
   * deleted and the scan resumes after it; where no match starts, one
   * character is kept.
   */
  function StripGroups(s: string): string
    decreases |s|
  {
    if s == [] then []
    else match GroupAt(s)
      case Some(n) => StripGroups(s[n..])
      case None => [s[0]] + StripGroups(s[1..])
  }

  /** The name `get_product_prices` searches for. */
  function CleanName(name: string): string
  {
    Trim(Python, StripGroups(name))
  }

  /** `s` has an opening parenthesis with a closing one somewhere after it. */
  predicate HasGroup(s: string)
  {
    exists i, j :: 0 <= i < j < |s| && s[i] == '(' && s[j] == ')'
  }

  /** Cleaning only ever deletes characters: one absent before is absent after. */
  lemma {:induction false} StripGroupsKeepsOut(s: string, c: char)
    requires c !in s
    ensures c !in StripGroups(s)
    decreases |s|
  {
    if s != [] {
      match GroupAt(s)
      case Some(n) =>
        assert forall k :: 0 <= k < |s[n..]| ==> s[n..][k] == s[n + k];
        StripGroupsKeepsOut(s[n..], c);
      case None =>
        assert forall k :: 0 <= k < |s[1..]| ==> s[1..][k] == s[1 + k];
        StripGroupsKeepsOut(s[1..], c);
    }
  }

  /** After the deletion no parenthesised group is left. */
  lemma {:induction false} StripGroupsLeavesNoGroup(s: string)
    ensures !HasGroup(StripGroups(s))
    decreases |s|
  {
    if s != [] {
      match GroupAt(s)
      case Some(n) =>
        StripGroupsLeavesNoGroup(s[n..]);
      case None =>
        var rest := StripGroups(s[1..]);
        StripGroupsLeavesNoGroup(s[1..]);
        if s[0] == '(' {
          assert LeadingSpaces(s) == 0;
          assert CloseFrom(s, 1).None?;
          assert ')' !in s[1..] by {
            assert forall k :: 0 <= k < |s[1..]| ==> s[1..][k] == s[k + 1];
          }
          StripGroupsKeepsOut(s[1..], ')');
        }
        var r := [s[0]] + rest;
        forall i, j | 0 <= i < j < |r| && r[i] == '(' ensures r[j] != ')' {
          assert r[j] == rest[j - 1];
          if i > 0 {
            assert rest[i - 1] == '(';
          }
        }
    }
  }

  /** A name without a group is left as it is. */
  lemma {:induction false} StripGroupsWithoutGroup(s: string)
    requires !HasGroup(s)
    ensures StripGroups(s) == s
    decreases |s|
  {
    if s != [] {
      var w := LeadingSpaces(s);
      if w < |s| && s[w] == '(' {
        forall k | w + 1 <= k < |s| ensures s[k] != ')' {
          assert s[w] == '(';
        }
        assert CloseFrom(s, w + 1).None?;
      }
      assert GroupAt(s).None?;
      assert !HasGroup(s[1..]) by {
        forall i, j | 0 <= i < j < |s[1..]| && s[1..][i] == '(' ensures s[1..][j] != ')' {
          assert s[i + 1] == '(' && s[1..][j] == s[j + 1];
        }
      }
      StripGroupsWithoutGroup(s[1..]);
      assert [s[0]] + s[1..] == s;
    }
  }

  /** No match starts in a part without `(` that does not end in whitespace. */
  lemma NoGroupInPlainPrefix(p: string, x: string)
    requires p != [] && '(' !in p && !IsSpace(Python, p[|p| - 1])
    ensures GroupAt(p + x).None?
  {
    var s := p + x;
    var w := LeadingSpaces(s);
    assert w < |p| by {
      assert s[|p| - 1] == p[|p| - 1];
    }
    assert s[w] == p[w];
  }

  lemma {:induction false} StripGroupsOfPlainPrefix(p: string, x: string)
    requires '(' !in p
    requires p != [] ==> !IsSpace(Python, p[|p| - 1])
    ensures StripGroups(p + x) == p + StripGroups(x)
    decreases |p|
  {
    if p == [] {
      assert p + x == x;
    } else {
      PlainRest(p);
      StripGroupsOfPlainPrefix(p[1..], x);
      KeepFirst(p, x);
      ConsAppend(p, StripGroups(x));
    }
  }

  /** The rest of a plain prefix after its first character is plain. */
  lemma PlainRest(p: string)
    requires p != [] && '(' !in p && !IsSpace(Python, p[|p| - 1])
    ensures '(' !in p[1..]
    ensures p[1..] != [] ==> !IsSpace(Python, p[1..][|p[1..]| - 1])
  {
    assert forall k :: 0 <= k < |p[1..]| ==> p[1..][k] == p[k + 1];
  }

  lemma ConsAppend(p: string, y: string)
    requires p != []
    ensures [p[0]] + (p[1..] + y) == p + y
  {
    assert p == [p[0]] + p[1..];
  }

  /** Where no match starts, the first character of a plain prefix is kept. */
  lemma KeepFirst(p: string, x: string)
    requires p != [] && '(' !in p && !IsSpace(Python, p[|p| - 1])
    ensures StripGroups(p + x) == [p[0]] + StripGroups(p[1..] + x)
  {
    NoGroupInPlainPrefix(p, x);
    assert (p + x)[1..] == p[1..] + x;
  }

  /** The match at the front of whitespace, a parenthesised text without `)` and a rest ends after the `)`. */
  lemma GroupAtFront(ws: string, inner: string, q: string)
    requires forall i :: 0 <= i < |ws| ==> IsSpace(Python, ws[i])
    requires ')' !in inner
    ensures GroupAt(ws + "(" + inner + ")" + q) == Some(|ws| + |inner| + 2)
  {
    var g := ws + "(" + inner + ")" + q;
    var w := LeadingSpaces(g);
    assert forall i :: 0 <= i < |ws| ==> g[i] == ws[i];
    assert g[|ws|] == '(';
    assert w == |ws|;
    var k := |ws| + 1 + |inner|;
    assert g[k] == ')';
    assert forall j :: w + 1 <= j < k ==> g[j] == inner[j - w - 1];
    assert CloseFrom(g, w + 1) == Some(k);
  }

  /**
   * A group, with the whitespace just before it, is deleted from between a
   * part without parentheses that does not end in whitespace and whatever
   * follows.
   */
  lemma StripGroupsDeletesGroup(p: string, ws: string, inner: string, q: string)
    requires '(' !in p && (p != [] ==> !IsSpace(Python, p[|p| - 1]))
    requires forall i :: 0 <= i < |ws| ==> IsSpace(Python, ws[i])
    requires ')' !in inner
    ensures StripGroups(p + ws + "(" + inner + ")" + q) == p + StripGroups(q)
  {
    var g := ws + "(" + inner + ")" + q;
    assert p + ws + "(" + inner + ")" + q == p + g;
    StripGroupsOfPlainPrefix(p, g);
    GroupAtFront(ws, inner, q);
    assert g[|ws| + |inner| + 2..] == q;
  }

  /** A name followed by one bracketed group, with a space before it, loses the group. */
  lemma StripOneGroup(p: string, inner: string)
    requires '(' !in p && p != [] && !IsSpace(Python, p[|p| - 1])
    requires ')' !in inner
    ensures StripGroups(p + " (" + inner + ")") == p
  {
    SizedNameParts(p, inner);
    StripGroupsDeletesGroup(p, " ", inner, "");
    assert StripGroups("") == "";
  }

  lemma SizedNameParts(p: string, inner: string)
    ensures p + " (" + inner + ")" == p + " " + "(" + inner + ")" + ""
  {
  }

  /** A name followed by one bracketed size cleans to the name. */
  lemma CleanSizedName(p: string, inner: string)
    requires '(' !in p && p != [] && !IsSpace(Python, p[0]) && !IsSpace(Python, p[|p| - 1])
    requires ')' !in inner
    ensures CleanName(p + " (" + inner + ")") == p
  {
    StripOneGroup(p, inner);
    TrimKeeps(Python, p);
  }

  /** A sized product name: the bracketed size is removed. */
  lemma CleanNameExample()
    ensures CleanName("Relief Oil (30ml)") == "Relief Oil"
  {
    CleanSizedName("Relief Oil", "30ml");
    assert "Relief Oil" + " (" + "30ml" + ")" == "Relief Oil (30ml)";
  }

  /** A cleaned name never holds a `(` with a `)` after it. */
  lemma CleanNameHasNoGroup(name: string)
    ensures !HasGroup(CleanName(name))
  {
    StripGroupsLeavesNoGroup(name);
    NoGroupInside(StripGroups(name), CleanName(name));
  }

  /** A part of a text without a group has none either. */
  lemma NoGroupInside(s: string, r: string)
    requires Contains(s, r) && !HasGroup(s)
    ensures !HasGroup(r)
  {
    var a: nat :| a <= |s| && OccursAt(s, r, a);
    forall i, j | 0 <= i < j < |r| && r[i] == '(' ensures r[j] != ')' {
      assert r[i] == s[a..a + |r|][i] == s[a + i];
      assert r[j] == s[a..a + |r|][j] == s[a + j];
    }
  }

  /** Cleaning a cleaned name changes nothing. */
  lemma CleanNameIdempotent(name: string)
    ensures CleanName(CleanName(name)) == CleanName(name)
  {
    var r := CleanName(name);
    CleanNameHasNoGroup(name);
    StripGroupsWithoutGroup(r);
    TrimIdempotent(Python, StripGroups(name));
  }

  // ---------------------------------------------------------------------------
  // Formula strings

  /** Where a string literal opened just before `from` ends: the next `'`, or the end of `f`. */
  function QuoteFrom(f: string, from: nat): (r: nat)
    requires from <= |f|
    ensures from <= r <= |f|
    ensures r < |f| ==> f[r] == '\''
    ensures forall j :: from <= j < r ==> f[j] != '\''
    decreases |f| - from
  {
    if from == |f| || f[from] == '\'' then from else QuoteFrom(f, from + 1)
  }

  /**
   * The text of the single-quoted literal that starts at index `from` of a
   * formula (just after its opening quote). The literal runs to the next
   * single quote; backslash escapes of Airtable's formula language are not
   * modelled, and the source writes none.
   */
  function LiteralAt(f: string, from: nat): string
    requires from <= |f|
  {
    f[from..QuoteFrom(f, from)]
  }

  /**
   * A value interpolated between single quotes without escaping is read back
   * as the literal exactly when it holds no quote; otherwise the literal
   * ends early, at the value's first quote, and the rest of the value is
   * read as formula text.
   */
  lemma QuotingIsExact(pre: string, v: string, post: string)
    requires post != [] && post[0] == '\''
    ensures LiteralAt(pre + v + post, |pre|) == v[..QuoteFrom(v, 0)]
    ensures LiteralAt(pre + v + post, |pre|) == v <==> '\'' !in v
  {
    var f := pre + v + post;
    var k := QuoteFrom(v, 0);
    forall j | |pre| <= j < |pre| + k ensures f[j] != '\'' {
      assert f[j] == v[j - |pre|];
    }
    if k < |v| {
      assert f[|pre| + k] == v[k];
    } else {
      assert f[|pre| + |v|] == post[0];
    }
    assert QuoteFrom(f, |pre|) == |pre| + k;
    assert f[|pre|..|pre| + k] == v[..k];
    if '\'' in v {
      var i :| 0 <= i < |v| && v[i] == '\'';
      assert k <= i;
    }
  }

  const PriceFormulaPrefix := "SEARCH(LOWER('"
  const PriceFormulaSuffix := "'), LOWER({product_name}))"

  /** The record cap of a price lookup. */
  const PriceLookupCap: Option<int> := Some(5)

  /** The formula `get_product_prices` sends: a case-insensitive search for the cleaned name. */
  function PriceFormula(productName: string): string
  {
    PriceFormulaPrefix + CleanName(productName) + PriceFormulaSuffix
  }

  /**
   * The price formula searches for exactly the cleaned name unless that name
   * holds a single quote, which ends the literal inside the name.
   */
  lemma PriceFormulaQuoting(productName: string)
    ensures LiteralAt(PriceFormula(productName), |PriceFormulaPrefix|) == CleanName(productName)
        <==> '\'' !in CleanName(productName)
  {
    QuotingIsExact(PriceFormulaPrefix, CleanName(productName), PriceFormulaSuffix);
  }

  lemma CleanNameWithQuote()
    ensures CleanName("O'Brien Oil (10ml)") == "O'Brien Oil"
  {
    CleanSizedName("O'Brien Oil", "10ml");
    assert "O'Brien Oil" + " (" + "10ml" + ")" == "O'Brien Oil (10ml)";
  }

  /** A name like "O'Brien Oil (10ml)" keeps its quote through cleaning and breaks out of the literal. */
  lemma PriceFormulaInjectionExample()
    ensures LiteralAt(PriceFormula("O'Brien Oil (10ml)"), |PriceFormulaPrefix|) == "O"
  {
    CleanNameWithQuote();
    QuoteSecond("O'Brien Oil");
  }

  /** A cleaned name whose second character is a quote leaves only its first character in the literal. */
  lemma QuoteSecond(v: string)
    requires |v| > 1 && v[0] != '\'' && v[1] == '\''
    ensures LiteralAt(PriceFormulaPrefix + v + PriceFormulaSuffix, |PriceFormulaPrefix|) == [v[0]]
  {
    QuotingIsExact(PriceFormulaPrefix, v, PriceFormulaSuffix);
    assert QuoteFrom(v, 1) == 1;
  }

  /** Python's truthiness of an `Optional[str]` argument: present and non-empty. */
  predicate Given(o: Option<string>)
  {
    o.Some? && o.value != ""
  }

  function TypeClause(productType: string): string
  {
    "FIND('" + productType + "', {product_type})"
  }

  function ConditionClause(condition: string): string
  {
    "FIND('" + condition + "', ARRAYJOIN({condition}, ','))"
  }

  function MinPriceClause(price: int): string
  {
    "VALUE({price})>=" + IntToString(price)
  }

  function MaxPriceClause(price: int): string
  {
    "VALUE({price})<=" + IntToString(price)
  }

  /**
   * The clauses `filter_products` conjoins, in its fixed order: type,
   * condition, minimum price, maximum price. A type or condition counts only
   * when non-empty; a price counts whenever it is given, zero included.
   */
  function FilterClauses(productType: Option<string>, condition: Option<string>,
                         minPrice: Option<int>, maxPrice: Option<int>): (r: seq<string>)
    ensures |r| == (if Given(productType) then 1 else 0) + (if Given(condition) then 1 else 0)
                 + (if minPrice.Some? then 1 else 0) + (if maxPrice.Some? then 1 else 0)
  {
    (if Given(productType) then [TypeClause(productType.value)] else [])
    + (if Given(condition) then [ConditionClause(condition.value)] else [])
    + (if minPrice.Some? then [MinPriceClause(minPrice.value)] else [])
    + (if maxPrice.Some? then [MaxPriceClause(maxPrice.value)] else [])
  }

  /**
   * The formula of `filter_products`: empty when no criterion is given (so
   * nothing is filtered out), and otherwise the conjunction of the given
   * clauses.
   */
  method BuildFilterFormula(productType: Option<string>, condition: Option<string>,
                            minPrice: Option<int>, maxPrice: Option<int>) returns (formula: string)
    ensures formula == "" <==> !Given(productType) && !Given(condition) && minPrice.None? && maxPrice.None?
    ensures formula != "" ==> formula == "AND(" + Join(FilterClauses(productType, condition, minPrice, maxPrice), ",") + ")"
  {
    var parts := CollectFilterClauses(productType, condition, minPrice, maxPrice);
    formula := if parts != [] then "AND(" + Join(parts, ",") + ")" else "";
  }

  /** The clauses of `filter_products`, appended one criterion at a time. */
  method CollectFilterClauses(productType: Option<string>, condition: Option<string>,
                              minPrice: Option<int>, maxPrice: Option<int>) returns (parts: seq<string>)
    ensures parts == FilterClauses(productType, condition, minPrice, maxPrice)
  {
    parts := [];
    if Given(productType) {
      parts := parts + [TypeClause(productType.value)];
    }
    if Given(condition) {
      parts := parts + [ConditionClause(condition.value)];
    }
    assert parts == FilterClauses(productType, condition, None, None);
    if minPrice.Some? {
      parts := parts + [MinPriceClause(minPrice.value)];
    }
    assert parts == FilterClauses(productType, condition, minPrice, None);
    if maxPrice.Some? {
      parts := parts + [MaxPriceClause(maxPrice.value)];
    }
  }

  /** An empty type or condition is the same as none; a zero price is a criterion. */
  lemma FilterCriteriaPresence(condition: Option<string>, minPrice: Option<int>, maxPrice: Option<int>)
    ensures FilterClauses(Some(""), condition, minPrice, maxPrice) == FilterClauses(None, condition, minPrice, maxPrice)
    ensures FilterClauses(None, None, Some(0), None) == ["VALUE({price})>=0"]
  {
    assert DigitChar(0) == '0';
    assert IntToString(0) == "0";
    assert MinPriceClause(0) == "VALUE({price})>=" + "0" == "VALUE({price})>=0";
    assert FilterClauses(None, None, Some(0), None) == [] + [] + [MinPriceClause(0)] + [];
  }

  /** The type and the condition are quoted like the product name, with the same gap. */
  lemma FilterQuoting(value: string)
    ensures LiteralAt(TypeClause(value), 6) == value <==> '\'' !in value
    ensures LiteralAt(ConditionClause(value), 6) == value <==> '\'' !in value
  {
    QuotingIsExact("FIND('", value, "', {product_type})");
    QuotingIsExact("FIND('", value, "', ARRAYJOIN({condition}, ','))");
  }

  /** A UTC moment, as `datetime` holds it. */
  datatype Timestamp = Timestamp(year: nat, month: nat, day: nat, hour: nat, minute: nat, second: nat)
  {
    predicate Valid()
    {
      1 <= year <= 9999 && 1 <= month <= 12 && 1 <= day <= 31 && hour < 24 && minute < 60 && second < 60
    }
  }

  function Pad2(n: nat): (r: string)
    requires n < 100
    ensures |r| == 2 && forall i :: 0 <= i < 2 ==> '0' <= r[i] <= '9'
  {
    [DigitChar(n / 10), DigitChar(n % 10)]
  }

  function Pad4(n: nat): (r: string)
    requires n < 10000
    ensures |r| == 4 && forall i :: 0 <= i < 4 ==> '0' <= r[i] <= '9'
  {
    Pad2(n / 100) + Pad2(n % 100)
  }

  /** `strftime('%Y-%m-%dT%H:%M:%S.000Z')`: 24 characters, none of them a quote. */
  function FormatTimestamp(t: Timestamp): (r: string)
    requires t.Valid()
    ensures |r| == 24 && '\'' !in r
  {
    Pad4(t.year) + "-" + Pad2(t.month) + "-" + Pad2(t.day) + "T"
    + Pad2(t.hour) + ":" + Pad2(t.minute) + ":" + Pad2(t.second) + ".000Z"
  }

  const RecencyPrefix := "OR(IS_AFTER({Created}, '"
  const RecencyMiddle := "'), IS_AFTER({Last Modified}, '"
  const RecencySuffix := "'))"

  /** The formula `get_latest_products` sends: created or modified after `since`. */
  function RecencyFormula(since: string): string
  {
    RecencyPrefix + since + RecencyMiddle + since + RecencySuffix
  }

  /**
   * The first comparison of the recency formula reads back exactly `since`
   * when it holds no quote, and the second, after it, reads the same.
   */
  lemma RecencyFormulaQuoting(since: string)
    ensures LiteralAt(RecencyFormula(since), |RecencyPrefix|) == since <==> '\'' !in since
    ensures '\'' !in since ==>
      LiteralAt(RecencyFormula(since), |RecencyPrefix| + |since| + |RecencyMiddle|) == since
  {
    var tail := RecencyMiddle + since + RecencySuffix;
    assert RecencyFormula(since) == RecencyPrefix + since + tail;
    QuotingIsExact(RecencyPrefix, since, tail);
    var head := RecencyPrefix + since + RecencyMiddle;
    assert RecencyFormula(since) == head + since + RecencySuffix;
    QuotingIsExact(head, since, RecencySuffix);
  }

  /** A formatted timestamp holds no quote, so both comparisons read the whole timestamp. */
  lemma RecencyFormulaComparesBoth(t: Timestamp)
    requires t.Valid()
    ensures LiteralAt(RecencyFormula(FormatTimestamp(t)), |RecencyPrefix|) == FormatTimestamp(t)
    ensures LiteralAt(RecencyFormula(FormatTimestamp(t)), |RecencyPrefix| + 24 + |RecencyMiddle|) == FormatTimestamp(t)
  {
    RecencyFormulaQuoting(FormatTimestamp(t));
  }

  // ---------------------------------------------------------------------------
  // Rows and products

  /** What raising means here: the request failed, or a row was not shaped as expected. */
  datatype CatalogError =
    | RequestFailed(reason: string)
    | AttributeError(typeName: string)

  /**
   * The HTTP request of `fetch_products`: the rows of the response's
   * `records` list for a formula and a record cap, or the reason the request
   * or `raise_for_status` raised. A cap of `None` is a `maxRecords`
   * parameter the request leaves out.
   */
  type Fetch = (string, Option<int>) -> Result<seq<Value>, string>

  /** A product as the lookups return it: a dictionary from key to value. */
  type Product = map<string, Value>

  const ProductKeys: set<string> := {"product_name", "SKU", "quantity", "price", "dose_unit"}

  const RecentProductKeys: set<string> := ProductKeys + {"created", "last_modified"}

  /** The two dictionary shapes: the price and filter lookups' and the recency lookup's. */
  datatype Shape = Basic | WithDates

  /**
   * `rec.get("fields", {})` followed by a `.get` on the result: the fields of
   * a row, or the `AttributeError` raised when the row or its `fields` is not
   * a dictionary.
   */
  function FieldsOf(row: Value): (r: Result<map<string, Value>, CatalogError>)
    ensures r.Ok? <==> row.Obj? && ("fields" in row.fields ==> row.fields["fields"].Obj?)
    ensures r.Ok? && "fields" !in row.fields ==> r.value == map[]
    ensures r.Ok? && "fields" in row.fields ==> r.value == row.fields["fields"].fields
    ensures r.Err? ==> r.error.AttributeError?
  {
    match row
    case Obj(rec) =>
      if "fields" !in rec then Ok(map[])
      else (match rec["fields"]
            case Obj(fields) => Ok(fields)
            case other => Err(AttributeError(PyTypeName(other))))
    case other => Err(AttributeError(PyTypeName(other)))
  }

  /**
   * The dictionary built from one row's fields: exactly the keys of its
   * shape, each holding the field's value or `None` when the field is absent.
   */
  function ProductOf(fields: map<string, Value>, shape: Shape): (p: Product)
    ensures p.Keys == (if shape == Basic then ProductKeys else RecentProductKeys)
    ensures forall k :: k in ProductKeys ==> p[k] == PyGet(fields, k)
    ensures shape == WithDates ==> p["created"] == PyGet(fields, "Created")
    ensures shape == WithDates ==> p["last_modified"] == PyGet(fields, "Last Modified")
  {
    var basic := map["product_name" := PyGet(fields, "product_name"),
                     "SKU" := PyGet(fields, "SKU"),
                     "quantity" := PyGet(fields, "quantity"),
                     "price" := PyGet(fields, "price"),
                     "dose_unit" := PyGet(fields, "dose_unit")];
    if shape == Basic then basic
    else basic["created" := PyGet(fields, "Created")]["last_modified" := PyGet(fields, "Last Modified")]
  }

  /**
   * What the normalising loop does with `rows`: one dictionary per row, in
   * row order; or, at the first row that is not shaped as expected, the error
   * it raises.
   */
  ghost predicate Normalises(rows: seq<Value>, shape: Shape, r: Result<seq<Product>, CatalogError>)
  {
    && (r.Ok? <==> forall i :: 0 <= i < |rows| ==> FieldsOf(rows[i]).Ok?)
    && (r.Ok? ==> |r.value| == |rows|
                  && forall i :: 0 <= i < |rows| ==> r.value[i] == ProductOf(FieldsOf(rows[i]).value, shape))
    && (r.Err? ==> exists k :: 0 <= k < |rows| && FieldsOf(rows[k]) == Err(r.error)
                               && forall i :: 0 <= i < k ==> FieldsOf(rows[i]).Ok?)
  }

  /** The loop the three lookups share: `results.append({...})` per row. */
  method NormaliseRows(rows: seq<Value>, shape: Shape) returns (r: Result<seq<Product>, CatalogError>)
    ensures Normalises(rows, shape, r)
  {
    var results: seq<Product> := [];
    for i := 0 to |rows|
      invariant |results| == i
      invariant forall j :: 0 <= j < i ==> FieldsOf(rows[j]).Ok?
      invariant forall j :: 0 <= j < i ==> results[j] == ProductOf(FieldsOf(rows[j]).value, shape)
    {
      var fields := FieldsOf(rows[i]);
      if fields.Err? {
        return Err(fields.error);
      }
      results := results + [ProductOf(fields.value, shape)];
    }
    return Ok(results);
  }

  /** The outcome of a lookup: the request's error, or the normalised rows. */
  ghost predicate LookedUp(response: Result<seq<Value>, string>, shape: Shape, r: Result<seq<Product>, CatalogError>)
  {
    match response
    case Err(reason) => r == Err(RequestFailed(reason))
    case Ok(rows) => Normalises(rows, shape, r)
  }

  /** `get_product_prices`: the price formula for the cleaned name, capped at five records. */
  method GetProductPrices(productName: string, fetch: Fetch) returns (r: Result<seq<Product>, CatalogError>)
    ensures LookedUp(fetch(PriceFormula(productName), PriceLookupCap), Basic, r)
  {
    var response := fetch(PriceFormula(productName), PriceLookupCap);
    if response.Err? {
      return Err(RequestFailed(response.error));
    }
    r := NormaliseRows(response.value, Basic);
  }

  /** `filter_products`: the conjunctive formula, capped at `limit` records. */
  method FilterProducts(productType: Option<string>, condition: Option<string>,
                        minPrice: Option<int>, maxPrice: Option<int>, limit: Option<int>, fetch: Fetch)
    returns (r: Result<seq<Product>, CatalogError>)
    ensures exists formula ::
      && (formula == "" <==> !Given(productType) && !Given(condition) && minPrice.None? && maxPrice.None?)
      && (formula != "" ==> formula == "AND(" + Join(FilterClauses(productType, condition, minPrice, maxPrice), ",") + ")")
      && LookedUp(fetch(formula, limit), Basic, r)
  {
    var formula := BuildFilterFormula(productType, condition, minPrice, maxPrice);
    var response := fetch(formula, limit);
    if response.Err? {
      return Err(RequestFailed(response.error));
    }
    r := NormaliseRows(response.value, Basic);
  }

  /**
   * `get_latest_products`: rows created or modified after `since`, the
   * moment `days` days before the current UTC time (computed by the caller),
   * capped at `limit` records, with the two date fields added.
   */
  method GetLatestProducts(since: Timestamp, limit: Option<int>, fetch: Fetch) returns (r: Result<seq<Product>, CatalogError>)
    requires since.Valid()
    ensures LookedUp(fetch(RecencyFormula(FormatTimestamp(since)), limit), WithDates, r)
  {
    var response := fetch(RecencyFormula(FormatTimestamp(since)), limit);
    if response.Err? {
      return Err(RequestFailed(response.error));
    }
    r := NormaliseRows(response.value, WithDates);
  }

  // ---------------------------------------------------------------------------
  // Markdown

  /**
   * `product.get(key, default)` as an f-string shows it: the value through
   * `show` (Python's `str`, which the model leaves abstract) when the key is
   * present, even when it holds `None`; the default only when it is absent.
   */
  function FieldText(p: Product, key: string, default: string, show: Value -> string): string
  {
    if key in p then show(p[key]) else default
  }

  /** The bold first line of a product block. */
  function NameLine(p: Product, show: Value -> string): string
  {
    "**" + FieldText(p, "product_name", "Unknown Product", show) + "**"
  }

  /** The second line of a product block. */
  function DetailsLine(p: Product, show: Value -> string): string
  {
    "- SKU: " + FieldText(p, "SKU", "-", show) + ", Quantity: " + FieldText(p, "quantity", "-", show)
    + ", Price: " + FieldText(p, "price", "-", show) + ", Unit: " + FieldText(p, "dose_unit", "-", show)
  }

  /** `format_product_markdown`: a bold name line, then one line of details. */
  function FormatProduct(p: Product, show: Value -> string): string
  {
    NameLine(p, show) + "\n" + DetailsLine(p, show)
  }

  /** `format_products_markdown`: one block per product, joined by line feeds. */
  function FormatProducts(products: seq<Product>, show: Value -> string): string
  {
    if products == [] then "No products found."
    else Join(seq(|products|, i requires 0 <= i < |products| => FormatProduct(products[i], show)), "\n")
  }

  lemma JoinHead(parts: seq<string>, sep: string)
    requires parts != []
    ensures StartsWith(Join(parts, sep), parts[0])
  {
    if |parts| > 1 {
      assert Join(parts, sep) == parts[0] + (sep + Join(parts[1..], sep));
    }
  }

  /** Every product block starts with the bold name line. */
  lemma FormatProductStartsWithName(p: Product, show: Value -> string)
    ensures StartsWith(FormatProduct(p, show), NameLine(p, show))
    ensures FormatProduct(p, show)[0] == '*'
  {
    var name := NameLine(p, show);
    assert FormatProduct(p, show) == name + ("\n" + DetailsLine(p, show));
    StartsWithAppend(name, "\n" + DetailsLine(p, show));
    assert name == "**" + (FieldText(p, "product_name", "Unknown Product", show) + "**");
  }

  /**
   * "No products found." is returned exactly when there are no products;
   * otherwise the text starts with the first product's bold name.
   */
  lemma FormatProductsEmptyIff(products: seq<Product>, show: Value -> string)
    ensures products == [] <==> FormatProducts(products, show) == "No products found."
    ensures products != [] ==> StartsWith(FormatProducts(products, show), NameLine(products[0], show))
  {
    if products != [] {
      var blocks := seq(|products|, i requires 0 <= i < |products| => FormatProduct(products[i], show));
      JoinHead(blocks, "\n");
      FormatProductStartsWithName(products[0], show);
      assert FormatProducts(products, show)[0] == '*';
    }
  }

  lemma FieldTextNoBreak(p: Product, key: string, default: string, show: Value -> string)
    requires forall v :: '\n' !in show(v)
    requires '\n' !in default
    ensures '\n' !in FieldText(p, key, default, show)
  {
  }

  /** A product block has exactly one line feed when `show` writes none. */
  lemma FormatProductOneBreak(p: Product, show: Value -> string)
    requires forall v :: '\n' !in show(v)
    ensures Count(FormatProduct(p, show), '\n') == 1
  {
    var name := NameLine(p, show);
    var details := DetailsLine(p, show);
    FieldTextNoBreak(p, "product_name", "Unknown Product", show);
    FieldTextNoBreak(p, "SKU", "-", show);
    FieldTextNoBreak(p, "quantity", "-", show);
    FieldTextNoBreak(p, "price", "-", show);
    FieldTextNoBreak(p, "dose_unit", "-", show);
    CountAbsent(name, '\n');
    CountAbsent(details, '\n');
    CountAppend(name + "\n", details, '\n');
    CountAppend(name, "\n", '\n');
  }

  /**
   * When `show` writes no line feed, `n` products render as exactly `2n`
   * lines: a name line and a details line per product.
   */
  lemma FormatProductsLines(products: seq<Product>, show: Value -> string)
    requires products != []
    requires forall v :: '\n' !in show(v)
    ensures Count(FormatProducts(products, show), '\n') == 2 * |products| - 1
  {
    var blocks := seq(|products|, i requires 0 <= i < |products| => FormatProduct(products[i], show));
    forall i | 0 <= i < |blocks| ensures Count(blocks[i], '\n') == 1 {
      FormatProductOneBreak(products[i], show);
    }
    CountJoin(blocks, '\n');
  }

  /** The name line of each product, in order. */
  function NameLines(products: seq<Product>, show: Value -> string): (r: seq<string>)
    ensures |r| == |products|
  {
    seq(|products|, i requires 0 <= i < |products| => NameLine(products[i], show))
  }

  /** The details line of each product, in order. */
  function DetailsLines(products: seq<Product>, show: Value -> string): (r: seq<string>)
    ensures |r| == |products|
  {
    seq(|products|, i requires 0 <= i < |products| => DetailsLine(products[i], show))
  }

  /**
   * The rendering line by line: for each product in order, its name line
   * and then its details line, all joined by line feeds.
   */
  lemma FormatProductsLineByLine(products: seq<Product>, show: Value -> string)
    requires products != []
    ensures var lines := Interleave(NameLines(products, show), DetailsLines(products, show));
      && FormatProducts(products, show) == Join(lines, "\n")
      && |lines| == 2 * |products|
      && (forall k :: 0 <= k < |products| ==>
            lines[2 * k] == NameLine(products[k], show) && lines[2 * k + 1] == DetailsLine(products[k], show))
  {
    var names, details := NameLines(products, show), DetailsLines(products, show);
    BlocksArePairs(products, show);
    JoinPairs(names, details, "\n");
    InterleaveAt(names, details);
  }

  lemma BlocksArePairs(products: seq<Product>, show: Value -> string)
    ensures seq(|products|, i requires 0 <= i < |products| => FormatProduct(products[i], show))
         == Pairs(NameLines(products, show), DetailsLines(products, show), "\n")
  {
    var names, details := NameLines(products, show), DetailsLines(products, show);
    forall i | 0 <= i < |products|
      ensures FormatProduct(products[i], show) == Pairs(names, details, "\n")[i]
    {
      assert names[i] == NameLine(products[i], show);
      assert details[i] == DetailsLine(products[i], show);
    }
  }

  /**
   * When `show` writes no line feed, no name or details line holds one, so
   * these lines are exactly the lines of the rendered text.
   */
  lemma ProductLinesNoBreak(products: seq<Product>, show: Value -> string)
    requires forall v :: '\n' !in show(v)
    ensures var lines := Interleave(NameLines(products, show), DetailsLines(products, show));
      forall i :: 0 <= i < |lines| ==> '\n' !in lines[i]
  {
    var names, details := NameLines(products, show), DetailsLines(products, show);
    forall k | 0 <= k < |products| ensures '\n' !in names[k] && '\n' !in details[k] {
      FieldTextNoBreak(products[k], "product_name", "Unknown Product", show);
      DetailsNoBreak(products[k], show);
    }
    InterleaveAvoids(names, details, '\n');
  }

  lemma DetailsNoBreak(p: Product, show: Value -> string)
    requires forall v :: '\n' !in show(v)
    ensures '\n' !in DetailsLine(p, show)
  {
    FieldTextNoBreak(p, "SKU", "-", show);
    FieldTextNoBreak(p, "quantity", "-", show);
    FieldTextNoBreak(p, "price", "-", show);
    FieldTextNoBreak(p, "dose_unit", "-", show);
  }

  /** A dictionary without any detail key shows `-` for each detail. */
  lemma DetailsWithoutKeys(p: Product, show: Value -> string)
    requires "SKU" !in p && "quantity" !in p && "price" !in p && "dose_unit" !in p
    ensures DetailsLine(p, show) == "- SKU: -, Quantity: -, Price: -, Unit: -"
  {
    assert DetailsLine(p, show) == "- SKU: " + "-" + ", Quantity: " + "-" + ", Price: " + "-" + ", Unit: " + "-";
  }

  /** A dictionary without a name renders as "Unknown Product". */
  lemma FormatProductWithoutName(p: Product, show: Value -> string)
    requires "product_name" !in p
    ensures NameLine(p, show) == "**Unknown Product**"
  {
  }

  /**
   * The lookups' dictionaries always hold every key, so the defaults never
   * apply to them: a row without a name renders as `str(None)`, not as
   * "Unknown Product".
   */
  lemma FormatNormalisedWithoutName(fields: map<string, Value>, shape: Shape, show: Value -> string)
    requires "product_name" !in fields
    ensures NameLine(ProductOf(fields, shape), show) == "**" + show(Null) + "**"
  {
    var p := ProductOf(fields, shape);
    assert p["product_name"] == Null;
  }
}
