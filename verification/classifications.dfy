/** `ClassificationRetriever.GetUniqueClassificationsAsync`: scan the images
    table page by page, split every item's `classifications` string on commas,
    trim and lowercase each piece, and keep one copy of each label under a
    case-insensitive comparison. The table is an oracle: the sequence of scan
    responses, and a failed scan is an exception that ends the call. */
module Classifications {
  import opened Wrappers
  import opened Text

  const ClassificationsAttribute := "classifications"

  /** A scanned item: attribute name to the attribute's string value `S`,
      which is null for attributes of other types. */
  type Item = map<string, Option<string>>

  /** One scan response: its items and whether `LastEvaluatedKey` is non-null
      and non-empty. */
  datatype ScanPage = ScanPage(items: seq<Item>, hasMore: bool)

  /** One piece after `Trim()` and `ToLower()`. */
  function Normalise(piece: string): (r: string)
    ensures NoUpper(r)
    ensures r == "" <==> forall i :: 0 <= i < |piece| ==> IsWhiteSpace(piece[i])
  {
    TrimEmptyIffBlank(piece);
    Lower(Trim(piece))
  }

  /** The labels one `classifications` value yields, in order. */
  function Pieces(value: string): (r: seq<string>)
    ensures |r| == |SplitRemoveEmpty(value, ',')|
    ensures forall i :: 0 <= i < |r| ==> r[i] == Normalise(SplitRemoveEmpty(value, ',')[i])
  {
    var parts := SplitRemoveEmpty(value, ',');
    seq(|parts|, i requires 0 <= i < |parts| => Normalise(parts[i]))
  }

  /** An item without a string `classifications` attribute yields nothing. */
  function ItemLabels(item: Item): (r: seq<string>)
    ensures ClassificationsAttribute !in item || item[ClassificationsAttribute].None? ==> r == []
  {
    if ClassificationsAttribute in item && item[ClassificationsAttribute].Some?
    then Pieces(item[ClassificationsAttribute].value) else []
  }

  /** The labels of a run of items, in order. */
  function ItemsLabels(items: seq<Item>): seq<string> {
    if |items| == 0 then [] else ItemsLabels(items[..|items| - 1]) + ItemLabels(items[|items| - 1])
  }

  /** The labels of a run of scan responses, in order. */
  function PagesLabels(pages: seq<ScanPage>): seq<string> {
    if |pages| == 0 then [] else PagesLabels(pages[..|pages| - 1]) + ItemsLabels(pages[|pages| - 1].items)
  }

  /** How many scans the `do … while` issues: up to and including the first
      response without a `LastEvaluatedKey`, or every response the oracle has. */
  function ScanCount(pages: seq<ScanPage>): (r: nat)
    ensures r <= |pages|
    ensures |pages| > 0 ==> r >= 1
  {
    if |pages| == 0 then 0 else if !pages[0].hasMore then 1 else 1 + ScanCount(pages[1..])
  }

  /** No two labels are equal ignoring case. */
  predicate DistinctIgnoringCase(labels: seq<string>) {
    forall i, j :: 0 <= i < j < |labels| ==> !EqualsIgnoreCase(labels[i], labels[j])
  }

  predicate AllLower(labels: seq<string>) {
    forall i :: 0 <= i < |labels| ==> NoUpper(labels[i])
  }

  /** The lookup `HashSet.Add` performs under `StringComparer.OrdinalIgnoreCase`. */
  method ContainsIgnoreCase(labels: seq<string>, x: string) returns (found: bool)
    ensures found <==> exists m :: 0 <= m < |labels| && EqualsIgnoreCase(labels[m], x)
  {
    found := false;
    var j := 0;
    while j < |labels|
      invariant 0 <= j <= |labels|
      invariant found <==> exists m :: 0 <= m < j && EqualsIgnoreCase(labels[m], x)
    {
      if EqualsIgnoreCase(labels[j], x) {
        found := true;
      }
      j := j + 1;
    }
  }

  /** Between lowercase strings, equality ignoring case is equality. */
  lemma LowerEqualsIgnoreCase(a: string, b: string)
    requires NoUpper(a) && NoUpper(b)
    ensures EqualsIgnoreCase(a, b) <==> a == b
  {
    LowerFixesNoUpper(a);
    LowerFixesNoUpper(b);
  }

  /** `uniqueClassifications.Add(label)` for a lowercase label. */
  method Add(labels: seq<string>, x: string) returns (r: seq<string>)
    requires AllLower(labels) && DistinctIgnoringCase(labels) && NoUpper(x)
    ensures AllLower(r) && DistinctIgnoringCase(r)
    ensures forall y :: y in r <==> y in labels || y == x
    ensures |r| <= |labels| + 1
  {
    var found := ContainsIgnoreCase(labels, x);
    if found {
      var m :| 0 <= m < |labels| && EqualsIgnoreCase(labels[m], x);
      LowerEqualsIgnoreCase(labels[m], x);
      r := labels;
    } else {
      r := labels + [x];
      forall i, j | 0 <= i < j < |r| ensures !EqualsIgnoreCase(r[i], r[j]) {
        if j == |labels| {
          assert r[j] == x;
        }
      }
    }
  }

  /** The inner `foreach`: add every label of one item. */
  method AddAll(labels: seq<string>, pieces: seq<string>) returns (r: seq<string>)
    requires AllLower(labels) && DistinctIgnoringCase(labels) && AllLower(pieces)
    ensures AllLower(r) && DistinctIgnoringCase(r)
    ensures forall y :: y in r <==> y in labels || y in pieces
  {
    r := labels;
    var k := 0;
    while k < |pieces|
      invariant 0 <= k <= |pieces|
      invariant DistinctIgnoringCase(r) && AllLower(r)
      invariant forall y :: y in r <==> y in labels || y in pieces[..k]
    {
      r := Add(r, pieces[k]);
      assert pieces[..k + 1] == pieces[..k] + [pieces[k]];
      k := k + 1;
    }
    assert pieces[..k] == pieces;
  }

  /** The `foreach` over one response's items. */
  method ScanItems(labels: seq<string>, items: seq<Item>) returns (r: seq<string>)
    requires AllLower(labels) && DistinctIgnoringCase(labels)
    ensures AllLower(r) && DistinctIgnoringCase(r)
    ensures forall y :: y in r <==> y in labels || y in ItemsLabels(items)
  {
    r := labels;
    var i := 0;
    while i < |items|
      invariant 0 <= i <= |items|
      invariant DistinctIgnoringCase(r) && AllLower(r)
      invariant forall y :: y in r <==> y in labels || y in ItemsLabels(items[..i])
    {
      assert AllLower(ItemLabels(items[i])) by {
        forall k | 0 <= k < |ItemLabels(items[i])| ensures NoUpper(ItemLabels(items[i])[k]) {
          PiecesLower(items[i], k);
        }
      }
      r := AddAll(r, ItemLabels(items[i]));
      assert items[..i + 1][..i] == items[..i];
      i := i + 1;
    }
    assert items[..i] == items;
  }

  /** The scan responses end with one that has no `LastEvaluatedKey`, so the
      scan loop stops before it runs out of responses. */
  predicate Finished(pages: seq<ScanPage>) {
    |pages| > 0 && (!pages[0].hasMore || Finished(pages[1..]))
  }

  /** `GetUniqueClassificationsAsync` over the scan responses `pages`: the
      scan request after the last of them throws `outage`, and the exception
      leaves the method. On success the result holds no two labels equal
      ignoring case, every label is lowercase, and its members are exactly
      the normalised pieces of every scanned item; `scans` is the number of
      scan requests issued, the one that threw included. */
  method GetUniqueClassifications(pages: seq<ScanPage>, outage: Error) returns (r: Result<seq<string>>, scans: nat)
    ensures r.Success? <==> Finished(pages)
    ensures r.Failure? ==> r.error == outage
    ensures scans == ScanCount(pages) + (if Finished(pages) then 0 else 1)
    ensures r.Success? ==> DistinctIgnoringCase(r.value) && AllLower(r.value)
    ensures r.Success? ==> forall y :: y in r.value <==> y in PagesLabels(pages[..ScanCount(pages)])
  {
    var labels := [];
    scans := 0;
    var more := true;
    while more
      invariant 0 <= scans <= |pages|
      invariant more ==> ScanCount(pages) == scans + ScanCount(pages[scans..])
      invariant more ==> (Finished(pages) <==> Finished(pages[scans..]))
      invariant !more ==> ScanCount(pages) == scans && Finished(pages)
      invariant DistinctIgnoringCase(labels) && AllLower(labels)
      invariant forall y :: y in labels <==> y in PagesLabels(pages[..scans])
      decreases |pages| - scans
    {
      if scans == |pages| {
        assert pages[scans..] == [];
        return Failure(outage), scans + 1;
      }
      var page := pages[scans];
      labels := ScanItems(labels, page.items);
      assert pages[..scans + 1][..scans] == pages[..scans];
      ScanCountStep(pages, scans);
      more := page.hasMore;
      scans := scans + 1;
    }
    r := Success(labels);
  }

  lemma PiecesLower(item: Item, k: nat)
    requires k < |ItemLabels(item)|
    ensures NoUpper(ItemLabels(item)[k])
  {
  }

  /** One more scan: the count advances, or stops when the response has no
      `LastEvaluatedKey`. */
  lemma ScanCountStep(pages: seq<ScanPage>, n: nat)
    requires n < |pages|
    ensures pages[n..][1..] == pages[n + 1..]
    ensures ScanCount(pages[n..]) == if pages[n].hasMore then 1 + ScanCount(pages[n + 1..]) else 1
    ensures Finished(pages[n..]) <==> !pages[n].hasMore || Finished(pages[n + 1..])
  {
    assert pages[n..][0] == pages[n];
  }

  /** A piece made only of whitespace survives `RemoveEmptyEntries` and
      becomes the label `""`; so `""` is a label of a value exactly when one of
      its non-empty comma-separated pieces is blank. */
  lemma EmptyLabel(value: string)
    ensures "" in Pieces(value) <==> HasBlankPiece(Split(value, ','))
  {
    var parts := Split(value, ',');
    assert SplitRemoveEmpty(value, ',') == NonEmpty(parts);
    BlankPieceIsEmptyLabel(parts, Pieces(value));
  }

  /** A piece that `RemoveEmptyEntries` keeps but trimming empties. */
  predicate BlankPiece(p: string) {
    p != "" && forall c :: 0 <= c < |p| ==> IsWhiteSpace(p[c])
  }

  /** Some piece of `parts` is blank. */
  predicate HasBlankPiece(parts: seq<string>) {
    exists k :: 0 <= k < |parts| && BlankPiece(parts[k])
  }

  /** The same, for any list of comma-separated parts. */
  lemma BlankPieceIsEmptyLabel(parts: seq<string>, labels: seq<string>)
    requires |labels| == |NonEmpty(parts)|
    requires forall i :: 0 <= i < |labels| ==> labels[i] == Normalise(NonEmpty(parts)[i])
    ensures "" in labels <==> HasBlankPiece(parts)
  {
    var kept := NonEmpty(parts);
    if "" in labels {
      var i :| 0 <= i < |kept| && labels[i] == "";
      assert Normalise(kept[i]) == "";
      var k :| 0 <= k < |parts| && parts[k] == kept[i];
    }
    if exists k :: 0 <= k < |parts| && BlankPiece(parts[k]) {
      var k :| 0 <= k < |parts| && BlankPiece(parts[k]);
      assert parts[k] in kept;
      var i :| 0 <= i < |kept| && kept[i] == parts[k];
      assert labels[i] == "";
    }
  }
}
