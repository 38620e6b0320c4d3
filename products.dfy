/**
  The bookkeeping rules of the product handlers: the stock-history entry an
  update logs, the initial history of a new product, product-name
  normalisation, the image list after an update, regular-expression escaping,
  the "under N" price cap in a catalogue search, the catalogue query's filter
  fields and the page window of a listing.

  A product document is a `Product` object. The ranking pipeline, the synonym
  and category-mapping expansion of search terms and the database calls are
  not part of this model.
*/
module Products {
  import opened Wrappers
  import opened JsStrings
  import opened Replies

  // ===== stock history =====

  datatype StockEntry = StockEntry(
    previousStock: int, newStock: int, reason: string, purchasePrice: real, date: Option<int>)

  const Restock: string := "restock"
  const StockReduction: string := "stock reduction"
  const NewProductReason: string := "new"

  /**
    The entry an update logs when the stock moves from `previous` to `stock`:
    none when it stays put, otherwise one stamped `now` whose reason says
    which way it moved.
  */
  function StockChangeEntry(previous: int, stock: int, purchasePrice: real, now: int): (e: Option<StockEntry>)
    ensures e.Some? <==> stock != previous
    ensures e.Some? ==> e.value.previousStock == previous && e.value.newStock == stock
    ensures e.Some? ==> e.value.purchasePrice == purchasePrice && e.value.date == Some(now)
    ensures e.Some? ==> (e.value.reason == Restock <==> stock > previous)
    ensures e.Some? ==> (e.value.reason == StockReduction <==> stock < previous)
  {
    var change := stock - previous;
    if change != 0 then
      Some(StockEntry(previous, stock, if change > 0 then Restock else StockReduction, purchasePrice, Some(now)))
    else
      None
  }

  /** The history after logging: one more entry exactly when the stock changed. */
  function LogStock(history: seq<StockEntry>, previous: int, stock: int, purchasePrice: real, now: int)
    : (r: seq<StockEntry>)
    ensures |r| == if stock != previous then |history| + 1 else |history|
    ensures r[..|history|] == history
    ensures stock != previous ==> r[|history|] == StockChangeEntry(previous, stock, purchasePrice, now).value
  {
    match StockChangeEntry(previous, stock, purchasePrice, now)
    case Some(e) => history + [e]
    case None => history
  }

  /**
    Logging keeps the history a chain: when the last entry recorded the
    current stock, the entry logged next starts where that one ended, and
    the last entry afterwards records the new stock.
  */
  lemma LogStockChains(history: seq<StockEntry>, previous: int, stock: int, purchasePrice: real, now: int)
    requires |history| > 0 && history[|history| - 1].newStock == previous
    ensures var r := LogStock(history, previous, stock, purchasePrice, now);
      && r[|r| - 1].newStock == stock
      && (|r| > |history| ==> r[|r| - 1].previousStock == r[|r| - 2].newStock)
  {
  }

  /** The history of a new product: one "new" entry from 0 to its stock, without a date. */
  function InitialHistory(stock: int, purchasePrice: real): (r: seq<StockEntry>)
    ensures |r| == 1 && r[0].previousStock == 0 && r[0].newStock == stock
    ensures r[0].reason == NewProductReason && r[0].purchasePrice == purchasePrice && r[0].date.None?
  {
    [StockEntry(0, stock, NewProductReason, purchasePrice, None)]
  }

  // ===== names =====

  /** `name.replace(/-/g, ' ').trim()`. */
  function NormaliseName(name: string): (r: string)
    ensures forall i :: 0 <= i < |r| ==> r[i] != '-'
    ensures r == [] || (!IsJsSpace(r[0]) && !IsJsSpace(r[|r| - 1]))
  {
    var spaced := ReplaceChar(name, '-', ' ');
    TrimSliceEnds(spaced);
    TrimKeepsAbsent(spaced, '-');
    Trim(spaced)
  }

  /** The normalised name is the dash-free name with its outer white space cut off. */
  lemma NormaliseNameSlice(name: string)
    ensures var r, k := NormaliseName(name), TrimOffset(ReplaceChar(name, '-', ' '));
      && k + |r| <= |name|
      && (forall i :: 0 <= i < |r| ==> r[i] == if name[k + i] == '-' then ' ' else name[k + i])
      && (forall i :: 0 <= i < k ==> name[i] == '-' || IsJsSpace(name[i]))
      && (forall i :: k + |r| <= i < |name| ==> name[i] == '-' || IsJsSpace(name[i]))
  {
    NormaliseNameKept(name);
    NormaliseNameCut(name);
  }

  lemma NormaliseNameKept(name: string)
    ensures var r, k := NormaliseName(name), TrimOffset(ReplaceChar(name, '-', ' '));
      && k + |r| <= |name|
      && (forall i :: 0 <= i < |r| ==> r[i] == if name[k + i] == '-' then ' ' else name[k + i])
  {
    TrimChars(ReplaceChar(name, '-', ' '));
    forall i | 0 <= i < |NormaliseName(name)|
      ensures var k := TrimOffset(ReplaceChar(name, '-', ' '));
        NormaliseName(name)[i] == if name[k + i] == '-' then ' ' else name[k + i]
    {
      NormaliseNameChar(name, i);
    }
  }

  lemma NormaliseNameChar(name: string, i: nat)
    requires i < |NormaliseName(name)|
    ensures var k := TrimOffset(ReplaceChar(name, '-', ' '));
      && k + i < |name|
      && NormaliseName(name)[i] == if name[k + i] == '-' then ' ' else name[k + i]
  {
    var spaced := ReplaceChar(name, '-', ' ');
    TrimChars(spaced);
    assert NormaliseName(name)[i] == spaced[TrimOffset(spaced) + i];
  }

  lemma NormaliseNameCut(name: string)
    ensures var r, k := NormaliseName(name), TrimOffset(ReplaceChar(name, '-', ' '));
      && (forall i :: 0 <= i < k ==> name[i] == '-' || IsJsSpace(name[i]))
      && (forall i :: k + |r| <= i < |name| ==> name[i] == '-' || IsJsSpace(name[i]))
  {
    var spaced := ReplaceChar(name, '-', ' ');
    TrimSliceAfter(spaced);
    var t := TrimStart(spaced);
    assert forall i :: 0 <= i < |spaced| - |t| ==> IsJsSpace(spaced[i]);
  }

  /** Normalising a normalised name changes nothing. */
  lemma NormaliseNameIdempotent(name: string)
    ensures NormaliseName(NormaliseName(name)) == NormaliseName(name)
  {
    var r := NormaliseName(name);
    assert ReplaceChar(r, '-', ' ') == r;
    TrimNoop(r);
  }

  // ===== images =====

  datatype Image = Image(url: string, altText: string)

  /** Uploaded files as images: each file's path, with the raw product name as alt text. */
  function UploadedImages(paths: seq<string>, altText: string): (r: seq<Image>)
    ensures |r| == |paths|
    ensures forall i :: 0 <= i < |paths| ==> r[i] == Image(paths[i], altText)
  {
    seq(|paths|, i requires 0 <= i < |paths| => Image(paths[i], altText))
  }

  /** `images.filter(image => image.url !== url)`. */
  function WithoutUrl(images: seq<Image>, url: string): (r: seq<Image>)
    ensures forall x :: x in r <==> x in images && x.url != url
  {
    if |images| == 0 then []
    else
      var rest := WithoutUrl(images[1..], url);
      assert forall x :: x in images <==> x == images[0] || x in images[1..];
      if images[0].url != url then [images[0]] + rest else rest
  }

  /** The filter keeps the relative order and the multiplicity: it works run by run. */
  lemma {:induction false} WithoutUrlConcat(a: seq<Image>, b: seq<Image>, url: string)
    ensures WithoutUrl(a + b, url) == WithoutUrl(a, url) + WithoutUrl(b, url)
    decreases |a|
  {
    if |a| == 0 {
      assert a + b == b;
    } else {
      assert (a + b)[0] == a[0];
      assert (a + b)[1..] == a[1..] + b;
      WithoutUrlConcat(a[1..], b, url);
    }
  }

  /** The images left after filtering once per deleted url, in the order of the list. */
  function Survivors(images: seq<Image>, deleted: seq<string>): seq<Image>
    decreases |deleted|
  {
    if |deleted| == 0 then images
    else WithoutUrl(Survivors(images, deleted[..|deleted| - 1]), deleted[|deleted| - 1])
  }

  /** The independent reference: one order-keeping pass dropping every image with a deleted url. */
  function KeepUndeleted(images: seq<Image>, deleted: seq<string>): (r: seq<Image>)
    ensures forall x :: x in r <==> x in images && x.url !in deleted
  {
    if |images| == 0 then []
    else
      var rest := KeepUndeleted(images[1..], deleted);
      assert forall x :: x in images <==> x == images[0] || x in images[1..];
      if images[0].url !in deleted then [images[0]] + rest else rest
  }

  /** Dropping one more url from the reference result is the reference for one more deleted url. */
  lemma {:induction false} KeepUndeletedSnoc(images: seq<Image>, deleted: seq<string>, url: string)
    ensures WithoutUrl(KeepUndeleted(images, deleted), url) == KeepUndeleted(images, deleted + [url])
    decreases |images|
  {
    if |images| > 0 {
      KeepUndeletedSnoc(images[1..], deleted, url);
      var x := images[0];
      assert x.url in deleted + [url] <==> x.url in deleted || x.url == url;
      var rest := KeepUndeleted(images[1..], deleted);
      if x.url !in deleted {
        assert KeepUndeleted(images, deleted) == [x] + rest;
        assert ([x] + rest)[1..] == rest;
      }
    }
  }

  /** Filtering url after url gives the same list as the single reference pass. */
  lemma {:induction false} SurvivorsKeepUndeleted(images: seq<Image>, deleted: seq<string>)
    ensures Survivors(images, deleted) == KeepUndeleted(images, deleted)
    decreases |deleted|
  {
    if |deleted| == 0 {
      assert deleted == [];
      KeepAll(images);
    } else {
      var front := deleted[..|deleted| - 1];
      SurvivorsKeepUndeleted(images, front);
      KeepUndeletedSnoc(images, front, deleted[|deleted| - 1]);
      assert front + [deleted[|deleted| - 1]] == deleted;
    }
  }

  lemma {:induction false} KeepAll(images: seq<Image>)
    ensures KeepUndeleted(images, []) == images
    decreases |images|
  {
    if |images| > 0 {
      KeepAll(images[1..]);
      assert [images[0]] + images[1..] == images;
    }
  }

  /** The reference pass works run by run: the kept existing images come before the kept new ones. */
  lemma {:induction false} KeepUndeletedConcat(a: seq<Image>, b: seq<Image>, deleted: seq<string>)
    ensures KeepUndeleted(a + b, deleted) == KeepUndeleted(a, deleted) + KeepUndeleted(b, deleted)
    decreases |a|
  {
    if |a| == 0 {
      assert a + b == b;
    } else {
      assert (a + b)[0] == a[0] && (a + b)[1..] == a[1..] + b;
      KeepUndeletedConcat(a[1..], b, deleted);
    }
  }

  /**
    The image list of an update: the product's images followed by the
    uploaded ones, filtered once per url of the deleted list when that list
    is present and not empty.
  */
  method MergeImages(existing: seq<Image>, uploaded: seq<Image>, deleted: Option<seq<string>>)
    returns (updated: seq<Image>)
    ensures updated == KeepUndeleted(existing + uploaded, deleted.GetOr([]))
    ensures forall x :: x in updated <==> (x in existing || x in uploaded) && x.url !in deleted.GetOr([])
  {
    updated := existing + uploaded;
    if deleted.Some? && |deleted.value| > 0 {
      var urls := deleted.value;
      var k := 0;
      while k < |urls|
        invariant 0 <= k <= |urls|
        invariant updated == Survivors(existing + uploaded, urls[..k])
      {
        assert urls[..k + 1][..k] == urls[..k];
        updated := WithoutUrl(updated, urls[k]);
        k := k + 1;
      }
      assert urls[..k] == urls;
      SurvivorsKeepUndeleted(existing + uploaded, urls);
    } else {
      KeepAll(existing + uploaded);
    }
  }

  // ===== regular-expression escaping =====

  /** The characters `escapeRegex` and `escapeRegExp` put a backslash in front of. */
  predicate IsRegexMeta(c: char) {
    c in ".*+?^${}()|[]\\"
  }

  /** `s.replace(/[.*+?^${}()|[\]\\]/g, '\\$&')`. */
  function Escape(s: string): (r: string)
    ensures |r| >= |s|
    ensures (forall i :: 0 <= i < |s| ==> !IsRegexMeta(s[i])) ==> r == s
    decreases |s|
  {
    if |s| == 0 then []
    else
      var rest := Escape(s[1..]);
      assert (forall i :: 0 <= i < |s| ==> !IsRegexMeta(s[i])) ==> forall i :: 0 <= i < |s[1..]| ==> !IsRegexMeta(s[1..][i]);
      (if IsRegexMeta(s[0]) then ['\\', s[0]] else [s[0]]) + rest
  }

  /** Each metacharacter gets one backslash in front of it; every other character stays as it is. */
  lemma EscapeChar(c: char)
    ensures Escape([c]) == if IsRegexMeta(c) then ['\\', c] else [c]
  {
    assert [c][1..] == [];
  }

  /** Removing the backslash in front of each escaped character. */
  function Unescape(r: string): string
    decreases |r|
  {
    if |r| == 0 then []
    else if r[0] == '\\' && |r| >= 2 then [r[1]] + Unescape(r[2..])
    else [r[0]] + Unescape(r[1..])
  }

  /** Dropping the inserted backslashes gives back the input. */
  lemma {:induction false} UnescapeEscape(s: string)
    ensures Unescape(Escape(s)) == s
    decreases |s|
  {
    if |s| > 0 {
      UnescapeEscape(s[1..]);
      var e := Escape(s);
      var rest := Escape(s[1..]);
      if IsRegexMeta(s[0]) {
        assert e == ['\\', s[0]] + rest;
        assert e[2..] == rest;
      } else {
        assert s[0] != '\\';
        assert e == [s[0]] + rest;
        assert e[1..] == rest;
      }
      assert [s[0]] + s[1..] == s;
    }
  }

  /** Escaping works character by character. */
  lemma {:induction false} EscapeConcat(a: string, b: string)
    ensures Escape(a + b) == Escape(a) + Escape(b)
    decreases |a|
  {
    if |a| == 0 {
      assert a + b == b;
    } else {
      assert (a + b)[0] == a[0] && (a + b)[1..] == a[1..] + b;
      EscapeConcat(a[1..], b);
    }
  }

  // ===== the "under N" price cap =====

  /** Whether "under", in any ASCII case, starts at index `i`. */
  predicate UnderWordAt(s: string, i: nat) {
    && i + 5 <= |s|
    && LowerChar(s[i]) == 'u' && LowerChar(s[i + 1]) == 'n' && LowerChar(s[i + 2]) == 'd'
    && LowerChar(s[i + 3]) == 'e' && LowerChar(s[i + 4]) == 'r'
  }

  /** How many white-space characters `\s+` takes greedily from index `p`. */
  function SpaceRun(s: string, p: nat): (n: nat)
    requires p <= |s|
    ensures p + n <= |s| && (p + n == |s| || !IsJsSpace(s[p + n]))
    decreases |s| - p
  {
    if p < |s| && IsJsSpace(s[p]) then 1 + SpaceRun(s, p + 1) else 0
  }

  /** Every character the white-space run takes is white space. */
  lemma {:induction false} SpaceRunSpaces(s: string, p: nat)
    requires p <= |s|
    ensures forall j :: p <= j < p + SpaceRun(s, p) ==> IsJsSpace(s[j])
    decreases |s| - p
  {
    if p < |s| && IsJsSpace(s[p]) {
      SpaceRunSpaces(s, p + 1);
    }
  }

  /**
    Whether `/under\s+(\d+)/i` matches at index `i`: "under" in any ASCII
    case, at least one white-space character, then a digit. The greedy
    `\s+` takes the whole run of white space, and giving any of it back
    would leave white space where `\d` must match.
  */
  predicate UnderAt(s: string, i: nat) {
    && UnderWordAt(s, i)
    && var k := SpaceRun(s, i + 5);
       k >= 1 && i + 5 + k < |s| && IsDigit(s[i + 5 + k])
  }

  /** The pattern as a test on start indexes of `s`. */
  function UnderTest(s: string): nat -> bool {
    (i: nat) => UnderAt(s, i)
  }

  /** The least index in `[from, to)` that passes `p`, as the regex engine tries start indexes in order. */
  function FirstWhere(p: nat -> bool, from: nat, to: nat): (r: Option<nat>)
    requires from <= to
    ensures r.Some? ==> from <= r.value < to && p(r.value)
    decreases (to as int) - from
  {
    if from == to then None
    else if p(from) then Some(from)
    else FirstWhere(p, from + 1, to)
  }

  /** No index before the one found passes, and none passes when nothing is found. */
  lemma {:induction false} FirstWhereLeast(p: nat -> bool, from: nat, to: nat)
    requires from <= to
    ensures FirstWhere(p, from, to).Some? ==> (forall j :: from <= j < FirstWhere(p, from, to).value ==> !p(j))
    ensures FirstWhere(p, from, to).None? ==> (forall j :: from <= j < to ==> !p(j))
    decreases (to as int) - from
  {
    if from < to && !p(from) {
      FirstWhereLeast(p, from + 1, to);
    }
  }

  /** The leftmost index of `s` where the pattern matches. */
  function FindUnder(s: string): (r: Option<nat>)
    ensures r.Some? ==> r.value < |s| && UnderAt(s, r.value)
  {
    FirstWhere(UnderTest(s), 0, |s|)
  }

  /** The search for the pattern skips no index where it matches. */
  lemma FindUnderFirst(s: string)
    ensures FindUnder(s).Some? ==> forall j :: 0 <= j < FindUnder(s).value ==> !UnderAt(s, j)
    ensures FindUnder(s).None? ==> forall j :: 0 <= j < |s| ==> !UnderAt(s, j)
  {
    FirstWhereLeast(UnderTest(s), 0, |s|);
    assert forall j: nat :: UnderTest(s)(j) == UnderAt(s, j);
  }

  /** A match: it covers `s[start..end]` and its captured digits are `s[end - |digits|..end]`. */
  datatype UnderMatch = UnderMatch(start: nat, digits: string, end: nat)

  /** Where the captured digits of a match at `i` start: after "under" and the white space. */
  function DigitsStart(s: string, i: nat): nat
    requires i + 5 <= |s|
  {
    i + 5 + SpaceRun(s, i + 5)
  }

  /** The digits a match at `i` captures: the whole digit run (greedy) after the white space. */
  lemma CapturedDigits(s: string, d: nat)
    requires d < |s|
    ensures var n := DigitRun(s[d..]);
      && d + n <= |s| && AllDigits(s[d..d + n])
      && (d + n == |s| || !IsDigit(s[d + n]))
  {
    var n := DigitRun(s[d..]);
    assert s[d..][..n] == s[d..d + n];
    assert n < |s[d..]| ==> s[d..][n] == s[d + n];
  }

  /** The match at an index where the pattern matches: its white space and digits taken greedily. */
  function MatchAt(s: string, i: nat): (m: UnderMatch)
    requires UnderAt(s, i)
    ensures m.start == i < m.end <= |s| && |m.digits| > 0 && AllDigits(m.digits)
  {
    var d := DigitsStart(s, i);
    assert DigitRun(s[d..]) >= 1 by {
      assert s[d..][0] == s[d];
    }
    CapturedDigits(s, d);
    var n := DigitRun(s[d..]);
    UnderMatch(i, s[d..d + n], d + n)
  }

  /** `search.match(/under\s+(\d+)/i)`: the match at the leftmost index where the pattern matches. */
  function MatchUnder(s: string): (m: Option<UnderMatch>)
    ensures m.Some? ==> m.value.start < m.value.end <= |s|
    ensures m.Some? ==> |m.value.digits| > 0 && AllDigits(m.value.digits)
  {
    match FindUnder(s)
    case None => None
    case Some(i) => Some(MatchAt(s, i))
  }

  /** There is a match exactly when the pattern matches at some index. */
  lemma MatchUnderExists(s: string)
    ensures MatchUnder(s).None? <==> forall j :: 0 <= j < |s| ==> !UnderAt(s, j)
  {
    FindUnderFirst(s);
  }

  /** A match starts at the leftmost index where the pattern matches. */
  lemma MatchUnderLeftmost(s: string)
    requires MatchUnder(s).Some?
    ensures var u := MatchUnder(s).value;
      UnderAt(s, u.start) && forall j :: 0 <= j < u.start ==> !UnderAt(s, j)
  {
    FindUnderFirst(s);
  }

  /**
    After "under", a match runs over only white space to its digits and
    captures the whole run of digits there.
  */
  lemma MatchUnderLayout(s: string)
    requires MatchUnder(s).Some?
    ensures var u := MatchUnder(s).value;
      && u.start + 6 + |u.digits| <= u.end <= |s|
      && s[u.end - |u.digits|..u.end] == u.digits
      && (forall i :: u.start + 5 <= i < u.end - |u.digits| ==> IsJsSpace(s[i]))
      && (u.end == |s| || !IsDigit(s[u.end]))
  {
    MatchAtLayout(s, FindUnder(s).value);
  }

  lemma MatchAtLayout(s: string, i: nat)
    requires UnderAt(s, i)
    ensures var u := MatchAt(s, i);
      && u.start + 6 + |u.digits| <= u.end <= |s|
      && s[u.end - |u.digits|..u.end] == u.digits
      && (forall j :: u.start + 5 <= j < u.end - |u.digits| ==> IsJsSpace(s[j]))
      && (u.end == |s| || !IsDigit(s[u.end]))
  {
    SpaceRunSpaces(s, i + 5);
    CapturedDigits(s, DigitsStart(s, i));
  }

  /** The price cap and the search terms a search string gives. */
  datatype SearchFilter = SearchFilter(maxPrice: Option<int>, terms: seq<string>)

  /**
    With a match, the cap is the number its digits spell and the terms come
    from the search with the match cut out and trimmed; without one, there
    is no cap and the terms come from the whole search. Terms are split at
    runs of white space.
  */
  function ParseSearch(search: string): (f: SearchFilter)
    ensures f.maxPrice.Some? <==> MatchUnder(search).Some?
    ensures MatchUnder(search).Some? ==> var u := MatchUnder(search).value;
      && f.maxPrice == Some(DigitsValue(u.digits))
      && f.terms == SplitOnSpaceRuns(Trim(search[..u.start] + search[u.end..]))
    ensures MatchUnder(search).None? ==> f.terms == SplitOnSpaceRuns(search)
    ensures |f.terms| >= 1 && forall k :: 0 <= k < |f.terms| ==> NoSpace(f.terms[k])
  {
    match MatchUnder(search)
    case None => SearchFilter(None, SplitOnSpaceRuns(search))
    case Some(u) =>
      ParseIntOfDigits(u.digits);
      SearchFilter(ParseInt(u.digits), SplitOnSpaceRuns(Trim(search[..u.start] + search[u.end..])))
  }

  /** A search without the word "under" in any case has no price cap. */
  lemma NoUnderNoCap(search: string)
    requires forall i :: 0 <= i < |search| ==> !UnderWordAt(search, i)
    ensures ParseSearch(search).maxPrice == None
    ensures ParseSearch(search).terms == SplitOnSpaceRuns(search)
  {
  }

  // ===== the catalogue query =====

  /** The `$or` condition: on the category or subcategory, or on the search terms (which override it). */
  datatype Alternatives = OnCategory(category: string) | OnSearch(terms: seq<string>)

  /** The filter fields of the catalogue query; a `None` field is a key the query does not have. */
  datatype Query = Query(alternatives: Option<Alternatives>, brand: Option<string>, maxPrice: Option<int>)

  predicate EmptyQuery(q: Query) {
    q.alternatives.None? && q.brand.None? && q.maxPrice.None?
  }

  /**
    The query getAllProducts builds field by field: the category condition,
    then the brand, then, for a search, the price cap and the search
    condition that takes the place of the category one.
  */
  method BuildQuery(category: Option<string>, brand: Option<string>, search: Option<string>)
    returns (q: Query)
    ensures Truthy(search) ==> q.alternatives == Some(OnSearch(ParseSearch(search.value).terms))
    ensures !Truthy(search) && Truthy(category) ==> q.alternatives == Some(OnCategory(category.value))
    ensures !Truthy(search) && !Truthy(category) ==> q.alternatives == None
    ensures q.brand == if Truthy(brand) then brand else None
    ensures q.maxPrice == if Truthy(search) then ParseSearch(search.value).maxPrice else None
    ensures EmptyQuery(q) <==> !Truthy(category) && !Truthy(brand) && !Truthy(search)
  {
    q := Query(None, None, None);
    if Truthy(category) {
      q := q.(alternatives := Some(OnCategory(category.value)));
    }
    if Truthy(brand) {
      q := q.(brand := brand);
    }
    if Truthy(search) {
      var filter := ParseSearch(search.value);
      if filter.maxPrice.Some? {
        q := q.(maxPrice := filter.maxPrice);
      }
      q := q.(alternatives := Some(OnSearch(filter.terms)));
    }
  }

  // ===== pagination =====

  const DefaultPage: int := 1
  const DefaultPerPage: int := 6

  /** The `$skip` and `$limit` stages of a listing. */
  datatype Window = Window(skip: nat, limit: nat)

  /**
    The window of a page, with page 1 and 6 per page when absent. The
    pipeline fails when the skip is negative or the limit is not positive,
    which gives `None`.
  */
  function PageWindow(page: Option<int>, perPage: Option<int>): (w: Option<Window>)
    ensures var p, n := page.GetOr(DefaultPage), perPage.GetOr(DefaultPerPage);
      && (w.Some? <==> n > 0 && p >= 1)
      && (w.Some? ==> w.value.skip == (p - 1) * n && w.value.limit == n)
  {
    var p, n := page.GetOr(DefaultPage), perPage.GetOr(DefaultPerPage);
    if n > 0 && p >= 1 then
      assert (p - 1) * n >= 0;
      Some(Window((p - 1) * n, n))
    else
      None
  }

  /** Whether the result at index `i` falls in the window. */
  predicate InWindow(w: Window, i: nat) {
    w.skip <= i < w.skip + w.limit
  }

  /** Consecutive pages follow each other without a gap or an overlap. */
  lemma PagesAdjoin(page: int, perPage: int)
    requires page >= 1 && perPage > 0
    ensures PageWindow(Some(page + 1), Some(perPage)).value.skip
         == PageWindow(Some(page), Some(perPage)).value.skip + perPage
  {
    assert page * perPage == (page - 1) * perPage + perPage;
  }

  lemma MulMonotone(a: int, b: int, n: int)
    requires a <= b && n > 0
    ensures a * n <= b * n
  {
    assert b * n - a * n == (b - a) * n;
  }

  /** Each result lies on exactly one page for a given page size. */
  lemma OnExactlyOnePage(perPage: int, i: nat)
    requires perPage > 0
    ensures var p := i / perPage + 1;
      PageWindow(Some(p), Some(perPage)).Some? && InWindow(PageWindow(Some(p), Some(perPage)).value, i)
    ensures forall q :: q >= 1 && q != i / perPage + 1 ==> !InWindow(PageWindow(Some(q), Some(perPage)).value, i)
  {
    var k := i / perPage;
    PageOf(perPage, i);
    assert (k + 1 - 1) * perPage == k * perPage by {
      assert k + 1 - 1 == k;
    }
    forall q | q >= 1 && q != i / perPage + 1
      ensures !InWindow(PageWindow(Some(q), Some(perPage)).value, i)
    {
      OtherPage(perPage, i, q);
    }
  }

  /** Index `i` lies in the stretch of `n` indexes that starts at `(i / n) * n`. */
  lemma PageOf(n: int, i: nat)
    requires n > 0
    ensures (i / n) * n <= i < (i / n) * n + n
  {
    assert i == (i / n) * n + i % n;
  }

  /** Index `i` lies in no other stretch of `n` indexes. */
  lemma OtherPage(n: int, i: nat, q: int)
    requires n > 0 && q >= 1 && q != i / n + 1
    ensures !((q - 1) * n <= i < (q - 1) * n + n)
  {
    var p := i / n;
    PageOf(n, i);
    if q - 1 < p {
      MulMonotone(q, p, n);
      assert (q - 1) * n + n == q * n;
    } else {
      MulMonotone(p + 1, q - 1, n);
      assert (p + 1) * n == p * n + n;
    }
  }

  // ===== products =====

  /** The fields an update copies as they come. */
  datatype Details = Details(
    description: string, brand: string, price: real, displayPrice: real,
    category: string, subcategory: string, specifications: seq<(string, string)>,
    keywords: seq<string>, weight: real, dimensions: (real, real, real))

  /** The decoded request body of newProduct and updateProduct. */
  datatype ProductInput = ProductInput(
    name: Option<string>, details: Details, stock: int, purchasePrice: real)

  class Product {
    var name: string
    var details: Details
    var stock: int
    var images: seq<Image>
    var stockHistory: seq<StockEntry>
    var updatedAt: Option<int>

    /**
      newProduct: the name normalised, one image per uploaded file with the
      raw name as alt text, and the initial "new" history entry. The
      purchase price is only kept in that entry.
    */
    constructor New(rawName: string, input: ProductInput, uploadedPaths: seq<string>)
      ensures name == NormaliseName(rawName) && details == input.details && stock == input.stock
      ensures images == UploadedImages(uploadedPaths, rawName)
      ensures stockHistory == InitialHistory(input.stock, input.purchasePrice)
      ensures updatedAt == None
    {
      name := NormaliseName(rawName);
      details := input.details;
      stock := input.stock;
      images := UploadedImages(uploadedPaths, rawName);
      stockHistory := InitialHistory(input.stock, input.purchasePrice);
      updatedAt := None;
    }

    /**
      The document changes updateProduct makes before saving: a stock entry
      when the stock changed, the merged image list, the normalised name,
      the copied fields and the update time.
    */
    method Update(rawName: string, input: ProductInput, uploadedPaths: seq<string>,
                  deleted: Option<seq<string>>, now: int)
      modifies this
      ensures stockHistory == LogStock(old(stockHistory), old(stock), input.stock, input.purchasePrice, now)
      ensures images == KeepUndeleted(old(images) + UploadedImages(uploadedPaths, rawName), deleted.GetOr([]))
      ensures name == NormaliseName(rawName) && details == input.details && stock == input.stock
      ensures updatedAt == Some(now)
    {
      var uploaded := UploadedImages(uploadedPaths, rawName);
      var updatedImages := MergeImages(images, uploaded, deleted);
      stockHistory := LogStock(stockHistory, stock, input.stock, input.purchasePrice, now);
      name := NormaliseName(rawName);
      details := input.details;
      stock := input.stock;
      images := updatedImages;
      updatedAt := Some(now);
    }
  }

  /**
    updateProduct: 404 when the product is missing; a request without a name
    throws at the name normalisation and saves nothing (500); otherwise the
    product is updated and the handler answers 200.
  */
  method UpdateProduct(product: Product?, input: ProductInput, uploadedPaths: seq<string>,
                       deleted: Option<seq<string>>, now: int)
    returns (reply: Reply)
    modifies product
    ensures product == null ==> reply == Reply(404, false)
    ensures product != null && input.name.None? ==> reply == Reply(500, false) && unchanged(product)
    ensures product != null && input.name.Some? ==> reply == Reply(200, true)
    ensures product != null && input.name.Some? ==>
      && product.stockHistory == LogStock(old(product.stockHistory), old(product.stock), input.stock, input.purchasePrice, now)
      && product.images == KeepUndeleted(old(product.images) + UploadedImages(uploadedPaths, input.name.value), deleted.GetOr([]))
      && product.name == NormaliseName(input.name.value) && product.stock == input.stock
      && product.details == input.details && product.updatedAt == Some(now)
  {
    if product == null {
      return Reply(404, false);
    }
    if input.name.None? {
      return Reply(500, false);
    }
    product.Update(input.name.value, input, uploadedPaths, deleted, now);
    reply := Reply(200, true);
  }

  /**
    newProduct: a request without a name throws at the name normalisation
    (500); otherwise the product is created and the handler answers 201.
  */
  method NewProduct(input: ProductInput, uploadedPaths: seq<string>)
    returns (reply: Reply, product: Product?)
    ensures input.name.None? ==> reply == Reply(500, false) && product == null
    ensures input.name.Some? ==> reply == Reply(201, true) && product != null && fresh(product)
    ensures product != null ==>
      && product.stockHistory == InitialHistory(input.stock, input.purchasePrice)
      && product.name == NormaliseName(input.name.value)
      && product.images == UploadedImages(uploadedPaths, input.name.value)
      && product.details == input.details && product.stock == input.stock && product.updatedAt == None
  {
    if input.name.None? {
      return Reply(500, false), null;
    }
    product := new Product.New(input.name.value, input, uploadedPaths);
    reply := Reply(201, true);
  }
}
