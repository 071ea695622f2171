/** The article catalog built in `getStaticProps` (pages/main/index.tsx): the search API's
    items are filtered down to those whose `link` contains `news.naver.com`, in their
    original order, and each kept item has its `title` and `description` reduced to plain
    text. The search request itself is left out; its `items` are the input. */
module Catalog {
  import opened Text

  /** One search result (`NewsModel`). */
  datatype NewsItem = NewsItem(title: string, link: string, description: string, pubDate: string)

  const NaverHost: string := "news.naver.com"

  /** `el.link.includes("news.naver.com")`. */
  predicate IsNaverLink(link: string) {
    Contains(link, NaverHost)
  }

  /** `{ ...article, title: load(article.title).text(), description: ... }`, with
      `plainText` standing for cheerio's `load(x).text()`. */
  function Normalize(item: NewsItem, plainText: string -> string): NewsItem
  {
    item.(title := plainText(item.title), description := plainText(item.description))
  }

  /** `items.filter((el) => el.link.includes("news.naver.com")).map(...)`. */
  function Articles(items: seq<NewsItem>, plainText: string -> string): (r: seq<NewsItem>)
    ensures |r| <= |items|
    ensures forall j :: 0 <= j < |r| ==> IsNaverLink(r[j].link)
  {
    if items == [] then []
    else
      var last := items[|items| - 1];
      Articles(items[..|items| - 1], plainText) + (if IsNaverLink(last.link) then [Normalize(last, plainText)] else [])
  }

  /** The catalog of a concatenation is the concatenation of the catalogs: kept items stay
      in their original relative order. */
  lemma {:induction false} ArticlesAppend(a: seq<NewsItem>, b: seq<NewsItem>, plainText: string -> string)
    ensures Articles(a + b, plainText) == Articles(a, plainText) + Articles(b, plainText)
    decreases |b|
  {
    if b == [] {
      assert a + b == a;
    } else {
      var b' := b[..|b| - 1];
      assert (a + b)[..|a + b| - 1] == a + b';
      ArticlesAppend(a, b', plainText);
    }
  }

  /** Every item with a Naver link makes it into the catalog, normalized. */
  lemma {:induction false} ArticlesKeeps(items: seq<NewsItem>, plainText: string -> string, k: int)
    requires 0 <= k < |items| && IsNaverLink(items[k].link)
    ensures Normalize(items[k], plainText) in Articles(items, plainText)
    decreases |items|
  {
    if k < |items| - 1 {
      ArticlesKeeps(items[..|items| - 1], plainText, k);
    }
  }

  /** Every catalog entry is the normalized form of an input item with a Naver link. */
  lemma {:induction false} ArticlesOnlyFromItems(items: seq<NewsItem>, plainText: string -> string, x: NewsItem)
    requires x in Articles(items, plainText)
    ensures exists k :: 0 <= k < |items| && IsNaverLink(items[k].link) && x == Normalize(items[k], plainText)
    decreases |items|
  {
    var init := items[..|items| - 1];
    var last := items[|items| - 1];
    if x in Articles(init, plainText) {
      ArticlesOnlyFromItems(init, plainText, x);
      var k :| 0 <= k < |init| && IsNaverLink(init[k].link) && x == Normalize(init[k], plainText);
      assert items[k] == init[k];
    } else {
      assert x == Normalize(last, plainText);
    }
  }

  /** The catalog is empty exactly when no item has a Naver link. */
  lemma ArticlesEmpty(items: seq<NewsItem>, plainText: string -> string)
    ensures Articles(items, plainText) == [] <==> forall k :: 0 <= k < |items| ==> !IsNaverLink(items[k].link)
  {
    if Articles(items, plainText) != [] {
      ArticlesOnlyFromItems(items, plainText, Articles(items, plainText)[0]);
    } else {
      forall k | 0 <= k < |items| && IsNaverLink(items[k].link)
        ensures false
      {
        ArticlesKeeps(items, plainText, k);
      }
    }
  }
}
