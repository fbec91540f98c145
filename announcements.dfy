/**
 * The item loop of the announcement scraper: each announcement item of the
 * department's "/Duyurular" page becomes a record of its trimmed title, its
 * full link and the first dd.dd.dddd date of its meta line, and items that
 * lack a title element, a link or a meta element are skipped.
 */
module Announcements {
  import opened Common
  import opened Text

  /** The `h5 a` element of an item: its text and its `href`, if any. */
  datatype TitleElement = TitleElement(innerText: string, href: Option<string>)

  /** One `.item` of the page: its title element and the text of its `.meta`
      element, each `None` when the item has no such element. */
  datatype PageItem = PageItem(title: Option<TitleElement>, meta: Option<string>)

  /** One scraped announcement: `{title, url, date}`. */
  datatype AnnouncementRecord = AnnouncementRecord(title: string, url: string, date: string)

  const AnnouncementsPath: string := "/Duyurular"
  const NoDate: string := "N/A"

  /** The page the announcements are listed on. */
  function ListUrl(contextUrl: string): (url: string)
    ensures |url| == |contextUrl| + |AnnouncementsPath| && contextUrl <= url
  {
    contextUrl + AnnouncementsPath
  }

  /** The pattern `\d{2}\.\d{2}\.\d{4}` matches `s` at index `i`. */
  predicate DateAt(s: string, i: nat) {
    && i + 10 <= |s|
    && IsDigit(s[i]) && IsDigit(s[i + 1]) && s[i + 2] == '.'
    && IsDigit(s[i + 3]) && IsDigit(s[i + 4]) && s[i + 5] == '.'
    && IsDigit(s[i + 6]) && IsDigit(s[i + 7])
    && IsDigit(s[i + 8]) && IsDigit(s[i + 9])
  }

  /** The leftmost index, from `from` on, where a date starts. */
  function FirstDateFrom(s: string, from: nat): (r: Option<nat>)
    ensures r.Some? ==> from <= r.value && DateAt(s, r.value)
    ensures forall j: nat :: from <= j && (r.None? || j < r.value) ==> !DateAt(s, j)
    decreases |s| - from
  {
    if from + 10 > |s| then None
    else if DateAt(s, from) then Some(from)
    else FirstDateFrom(s, from + 1)
  }

  /** `re.search(...)`'s first match, or "N/A". */
  function DateOf(metaText: string): (date: string)
    ensures (forall j: nat :: !DateAt(metaText, j)) <==> date == NoDate
    ensures date != NoDate ==>
      exists i: nat :: DateAt(metaText, i) && date == metaText[i..i + 10]
                       && forall j: nat :: j < i ==> !DateAt(metaText, j)
  {
    match FirstDateFrom(metaText, 0)
    case None => NoDate
    case Some(i) =>
      var date := metaText[i..i + 10];
      assert date[1] != NoDate[1];
      date
  }

  /** The item has everything a record needs: a title element with a
      non-empty link, and a meta element. */
  predicate IsComplete(item: PageItem) {
    && item.title.Some?
    && item.title.value.href.Some? && item.title.value.href.value != []
    && item.meta.Some?
  }

  /** The record built from a complete item. */
  function RecordOf(listUrl: string, item: PageItem): AnnouncementRecord
    requires IsComplete(item)
  {
    AnnouncementRecord(
      Strip(item.title.value.innerText),
      listUrl + "/" + item.title.value.href.value,
      DateOf(item.meta.value))
  }

  /** The complete items, in page order: the ones the loop does not skip. */
  function KeptItems(items: seq<PageItem>): (kept: seq<PageItem>)
    ensures forall j :: 0 <= j < |kept| ==> IsComplete(kept[j])
  {
    if items == [] then []
    else
      var last := items[|items| - 1];
      KeptItems(items[..|items| - 1]) + (if IsComplete(last) then [last] else [])
  }

  /** The records of the complete items, in page order. */
  function Extracted(listUrl: string, items: seq<PageItem>): (records: seq<AnnouncementRecord>)
    ensures |records| == |KeptItems(items)|
  {
    var kept := KeptItems(items);
    seq(|kept|, j requires 0 <= j < |kept| => RecordOf(listUrl, kept[j]))
  }

  /** The item loop of `scrape_announcements`, given the context URL and the
      items the page shows. */
  method ScrapeAnnouncementItems(contextUrl: string, items: seq<PageItem>)
    returns (announcements: seq<AnnouncementRecord>)
    ensures announcements == Extracted(ListUrl(contextUrl), items)
  {
    var url := contextUrl + "/Duyurular";
    announcements := [];
    for idx := 0 to |items|
      invariant announcements == Extracted(url, items[..idx])
    {
      var item := items[idx];
      assert items[..idx + 1][..idx] == items[..idx];
      ghost var kept := KeptItems(items[..idx]);
      var titleElement := item.title;
      if titleElement.None? {
        continue;
      }
      var title := Strip(titleElement.value.innerText);
      var relativeLink := titleElement.value.href;
      if relativeLink.None? || relativeLink.value == [] {
        continue;
      }
      var fullLink := url + "/" + relativeLink.value;
      var metaElement := item.meta;
      if metaElement.None? {
        continue;
      }
      var metaText := metaElement.value;
      var date := DateOf(metaText);
      announcements := announcements + [AnnouncementRecord(title, fullLink, date)];
      assert KeptItems(items[..idx + 1]) == kept + [item];
    }
    assert items[..|items|] == items;
  }

  // ---------------------------------------------------------------------
  // Properties

  /** The indices of the complete items, in increasing order. */
  function KeptIndices(items: seq<PageItem>): (ks: seq<nat>)
    ensures forall j :: 0 <= j < |ks| ==> ks[j] < |items|
  {
    if items == [] then []
    else KeptIndices(items[..|items| - 1]) + (if IsComplete(items[|items| - 1]) then [|items| - 1] else [])
  }

  /** The loop keeps exactly the complete items, each once and in page
      order: the kept indices increase, an index is kept iff its item is
      complete, and the kept items are the items at those indices. */
  lemma {:induction false} KeptItemsAreCompleteItems(items: seq<PageItem>)
    ensures var ks := KeptIndices(items);
      && (forall j, l :: 0 <= j < l < |ks| ==> ks[j] < ks[l])
      && (forall i :: 0 <= i < |items| ==> (i in ks <==> IsComplete(items[i])))
      && |KeptItems(items)| == |ks|
      && forall j :: 0 <= j < |ks| ==> KeptItems(items)[j] == items[ks[j]]
    decreases |items|
  {
    if items != [] {
      var init := items[..|items| - 1];
      KeptItemsAreCompleteItems(init);
      var ks0 := KeptIndices(init);
      assert forall j :: 0 <= j < |ks0| ==> items[ks0[j]] == init[ks0[j]];
    }
  }

  /** Each record is the record of the item at the matching kept index. */
  lemma RecordsFollowKeptIndices(listUrl: string, items: seq<PageItem>)
    ensures var ks := KeptIndices(items);
      && |Extracted(listUrl, items)| == |ks|
      && forall j :: 0 <= j < |ks| ==>
           IsComplete(items[ks[j]]) && Extracted(listUrl, items)[j] == RecordOf(listUrl, items[ks[j]])
  {
    KeptItemsAreCompleteItems(items);
  }

  /** Skipping never adds records: at most one per item. */
  lemma {:induction false} ExtractedNoLonger(listUrl: string, items: seq<PageItem>)
    ensures |Extracted(listUrl, items)| <= |items|
    decreases |items|
  {
    if items != [] {
      ExtractedNoLonger(listUrl, items[..|items| - 1]);
    }
  }

  /** The loop handles items one at a time: the items kept from a page are
      those kept from its first part followed by those kept from the rest. */
  lemma {:induction false} KeptItemsAppend(a: seq<PageItem>, b: seq<PageItem>)
    ensures KeptItems(a + b) == KeptItems(a) + KeptItems(b)
    decreases |b|
  {
    if b == [] {
      assert a + b == a;
    } else {
      assert (a + b)[..|a + b| - 1] == a + b[..|b| - 1];
      KeptItemsAppend(a, b[..|b| - 1]);
    }
  }

  /** Every record links below the announcements page. */
  lemma RecordLinksBelowList(contextUrl: string, item: PageItem)
    requires IsComplete(item)
    ensures contextUrl + AnnouncementsPath + "/" <= RecordOf(ListUrl(contextUrl), item).url
  {
  }
}
