/**
  The logic of the home page, pages/index.tsx: the `useFilteredPosts` hook
  with its word search and its favourites filter, the cap on the number of
  entries rendered, and the two computations of `getStaticProps`, the page
  requests that fetch every post of the category and the audio path each
  post's excerpt yields.
*/
module Home {
  import opened Wrappers
  import opened JsText
  import opened Numbers
  import opened JsonText
  import opened JsArray

  /** A post as the page holds it; `title` is the rendered title. */
  datatype Post = Post(id: int, audioUrl: string, title: string, date: string)

  const DefaultNumberOfPosts := 12

  // ---------------------------------------------------------------- search

  /** The words of a search box value: `string.split(" ")`. */
  function SearchWords(value: string): (words: seq<string>)
    ensures |words| >= 1
  {
    Split(value, ' ')
  }

  /** `words.length > 0 && words.every(word => title.includes(word.toLowerCase()))`
      for the lowercased title. */
  predicate MatchesAll(title: string, words: seq<string>) {
    |words| > 0 && forall w :: w in words ==> Includes(Lower(title), Lower(w))
  }

  function TitleMatches(words: seq<string>): Post -> bool {
    (post: Post) => MatchesAll(post.title, words)
  }

  /** `filterPosts(words)`: the posts whose title contains every word, ignoring
      ASCII case, from the full list; no words match nothing. */
  function PostsMatching(posts: seq<Post>, words: seq<string>): (r: seq<Post>)
    ensures words == [] ==> r == []
    ensures forall p :: p in r <==> p in posts && MatchesAll(p.title, words)
  {
    if words == [] then FilterNone(posts, TitleMatches(words)); Filter(posts, TitleMatches(words))
    else Filter(posts, TitleMatches(words))
  }

  /** The matching posts keep their order in the list. */
  lemma PostsMatchingInOrder(posts: seq<Post>, words: seq<string>)
    ensures Subsequence(PostsMatching(posts, words), posts)
  {
    FilterSubsequence(posts, TitleMatches(words));
  }

  /** A cleared search box gives the one word "", which every title contains:
      every post is shown again. */
  lemma ClearedSearchShowsAll(posts: seq<Post>)
    ensures PostsMatching(posts, SearchWords("")) == posts
  {
    assert SearchWords("") == [""];
    forall p | p in posts
      ensures MatchesAll(p.title, [""])
    {
      assert Includes(Lower(p.title), []);
    }
    FilterAll(posts, TitleMatches([""]));
  }

  /** Words are combined with AND: searching for more words narrows the result
      of the first ones. */
  lemma MoreWordsNarrow(posts: seq<Post>, words: seq<string>, more: seq<string>)
    requires words != [] && more != []
    ensures PostsMatching(posts, words + more) == PostsMatching(PostsMatching(posts, words), more)
  {
    forall p: Post
      ensures TitleMatches(words + more)(p) == (TitleMatches(words)(p) && TitleMatches(more)(p))
    {
      assert forall w :: w in words + more <==> w in words || w in more;
    }
    FilterFilter(posts, TitleMatches(words), TitleMatches(more), TitleMatches(words + more));
  }

  /** Only which words occur matters, not their order or repetition. */
  lemma SameWordsSameResult(posts: seq<Post>, words: seq<string>, other: seq<string>)
    requires forall w :: w in words <==> w in other
    ensures PostsMatching(posts, words) == PostsMatching(posts, other)
  {
    assert words == [] <==> other == [] by {
      if words != [] {
        assert words[0] in other;
      }
      if other != [] {
        assert other[0] in words;
      }
    }
    FilterEquivalent(posts, TitleMatches(words), TitleMatches(other));
  }

  /** The empty word a double space leaves in a search changes nothing. */
  lemma EmptyWordIgnored(posts: seq<Post>, words: seq<string>)
    requires words != []
    ensures PostsMatching(posts, words + [""]) == PostsMatching(posts, words)
  {
    forall p: Post
      ensures TitleMatches(words + [""])(p) == TitleMatches(words)(p)
    {
      assert Includes(Lower(p.title), []);
      assert Lower("") == "";
      assert forall w :: w in words + [""] <==> w in words || w == "";
    }
    FilterEquivalent(posts, TitleMatches(words + [""]), TitleMatches(words));
  }

  // ---------------------------------------------------------------- favourites

  function IsFavorite(favorites: seq<Json>): Post -> bool {
    (post: Post) => JNum(post.id) in favorites
  }

  /** `filterFavorites`: with favourites, the posts whose id is one of them;
      with none, every post. */
  function FavoritePosts(posts: seq<Post>, favorites: seq<Json>): (r: seq<Post>)
    ensures favorites == [] ==> r == posts
    ensures favorites != [] ==> forall p :: p in r <==> p in posts && JNum(p.id) in favorites
  {
    if |favorites| > 0 then Filter(posts, IsFavorite(favorites)) else posts
  }

  /** The favourite posts keep their order in the list. */
  lemma FavoritePostsInOrder(posts: seq<Post>, favorites: seq<Json>)
    ensures Subsequence(FavoritePosts(posts, favorites), posts)
  {
    if favorites != [] {
      FilterSubsequence(posts, IsFavorite(favorites));
    } else {
      FilterAll(posts, _ => true);
      FilterSubsequence(posts, _ => true);
    }
  }

  /** The state slot of `useFilteredPosts`. Both filters compute from the full
      list the hook was given, never from the previous result. */
  class FilteredPosts {
    const posts: seq<Post>
    var filteredPosts: seq<Post>

    constructor (posts: seq<Post>)
      ensures this.posts == posts && filteredPosts == posts
    {
      this.posts := posts;
      filteredPosts := posts;
    }

    method FilterPosts(words: seq<string>)
      modifies this
      ensures filteredPosts == PostsMatching(posts, words)
    {
      filteredPosts := PostsMatching(posts, words);
    }

    /** The effect that runs whenever the favourites list changes. */
    method FilterFavorites(favorites: seq<Json>)
      modifies this
      ensures filteredPosts == FavoritePosts(posts, favorites)
    {
      filteredPosts := FavoritePosts(posts, favorites);
    }
  }

  // ---------------------------------------------------------------- the render cap

  /** `filteredPosts.slice(0, numberOfPost)`: NaN counts as 0, and a negative
      end counts back from the end of the list. */
  function VisiblePosts(posts: seq<Post>, numberOfPost: Number): (r: seq<Post>)
    ensures |r| <= |posts| && r == posts[..|r|]
    ensures numberOfPost.NaN? ==> r == []
    ensures numberOfPost.Finite? && numberOfPost.value >= 0 ==>
      |r| <= numberOfPost.value && (|r| == numberOfPost.value || r == posts)
    ensures numberOfPost.Finite? && numberOfPost.value < 0 ==>
      |r| == (if |posts| + numberOfPost.value > 0 then |posts| + numberOfPost.value else 0)
  {
    match numberOfPost
    case NaN => []
    case Finite(n) =>
      if n >= 0 then (if n < |posts| then posts[..n] else posts)
      else if |posts| + n > 0 then posts[..|posts| + n]
      else []
  }

  /** The number input holds a numeral or, once cleared, nothing: the first
      shows that many posts at most, the second none. */
  lemma NumberInputCap(posts: seq<Post>, n: nat)
    ensures VisiblePosts(posts, StringToNumber(NatToDecimal(n))) == if n < |posts| then posts[..n] else posts
    ensures VisiblePosts(posts, StringToNumber("")) == []
  {
    StringToNumberOfDecimal(n);
  }

  // ---------------------------------------------------------------- audio paths

  const SrcAttr := "src=\""

  /** The site path every uploaded file lives under. */
  const SitePath := "paullowe.org/wp-content/uploads/"

  /** The base the rendered `src` puts in front of an audio path. */
  const UploadsBase := "https://" + "www." + SitePath

  /** The first position at or after `from` where `sub` occurs. */
  function FirstOccurrence(s: string, sub: string, from: nat): (r: Option<nat>)
    decreases |s| - from
    ensures r.Some? ==> from <= r.value && OccursAt(s, sub, r.value)
    ensures r.Some? ==> forall j :: from <= j < r.value ==> !OccursAt(s, sub, j)
    ensures r.None? ==> forall j :: from <= j ==> !OccursAt(s, sub, j)
  {
    if from + |sub| > |s| then None
    else if s[from..from + |sub|] == sub then Some(from)
    else FirstOccurrence(s, sub, from + 1)
  }

  /** `[^"]*`: the longest prefix without the `stop` character. */
  function TakeUntil(s: string, stop: char): (r: string)
    ensures |r| <= |s| && stop !in r && r == s[..|r|]
    ensures |r| == |s| || s[|r|] == stop
  {
    if s == [] || s[0] == stop then [] else [s[0]] + TakeUntil(s[1..], stop)
  }

  function DropScheme(u: string): string {
    if StartsWith(u, "https://") then u[8..] else if StartsWith(u, "http://") then u[7..] else u
  }

  function DropWww(u: string): string {
    if StartsWith(u, "www.") then u[4..] else u
  }

  /** The replace with `^(https?:\/\/)?(www\.)?paullowe\.org\/wp-content\/uploads\/`:
      an optional scheme, an optional "www." and the site path are cut off the
      front; without the site path the url stays as it is. Neither optional
      part can be given back to let the rest match, so the groups never
      backtrack. */
  function StripUploadsPrefix(u: string): (r: string)
    ensures |r| <= |u| && r == u[|u| - |r|..]
  {
    var rest := DropWww(DropScheme(u));
    if StartsWith(rest, SitePath) then rest[|SitePath|..] else u
  }

  /** The audio path of an excerpt: the text after the first `src="` up to the
      next quote, without its site prefix, or "" when there is no `src="`. */
  function AudioUrl(excerpt: string): (url: string)
    ensures !Includes(excerpt, SrcAttr) ==> url == ""
  {
    match FirstOccurrence(excerpt, SrcAttr, 0)
    case None => ""
    case Some(i) => StripUploadsPrefix(TakeUntil(excerpt[i + |SrcAttr|..], '"'))
  }

  /** An optional scheme in front of a text that starts with `w` or `p` is cut off whole. */
  lemma DropSchemeOf(scheme: string, rest: string)
    requires scheme == "" || scheme == "http://" || scheme == "https://"
    requires rest != [] && (rest[0] == 'w' || rest[0] == 'p')
    ensures DropScheme(scheme + rest) == rest
  {
    var u := scheme + rest;
    if scheme == "https://" {
      assert StartsWith(u, "https://");
      assert u[8..] == rest;
    } else if scheme == "http://" {
      assert !StartsWith(u, "https://") by { assert u[4] == ':'; }
      assert StartsWith(u, "http://");
      assert u[7..] == rest;
    } else {
      assert u == rest;
      assert u[0] != 'h';
    }
  }

  /** An optional "www." in front of a text that starts with `p` is cut off whole. */
  lemma DropWwwOf(www: string, rest: string)
    requires www == "" || www == "www."
    requires rest != [] && rest[0] == 'p'
    ensures DropWww(www + rest) == rest
  {
    if www == "www." {
      assert StartsWith(www + rest, "www.");
      assert (www + rest)[4..] == rest;
    } else {
      assert www + rest == rest;
    }
  }

  /** The site path is cut off the front of a text that starts with it. */
  lemma SitePathStripped(path: string)
    ensures StartsWith(SitePath + path, SitePath)
    ensures (SitePath + path)[|SitePath|..] == path
  {
    assert (SitePath + path)[..|SitePath|] == SitePath;
  }

  /** Every spelling of the prefix the pattern accepts is cut off whole. */
  lemma StripPrefixed(scheme: string, www: string, path: string)
    requires scheme == "" || scheme == "http://" || scheme == "https://"
    requires www == "" || www == "www."
    ensures StripUploadsPrefix(scheme + www + SitePath + path) == path
  {
    var site := SitePath + path;
    var afterScheme := www + site;
    assert site[0] == 'p' by { assert SitePath[0] == 'p'; }
    assert afterScheme[0] == 'w' || afterScheme[0] == 'p' by {
      if www == "www." { assert afterScheme[0] == www[0]; } else { assert afterScheme == site; }
    }
    assert scheme + www + SitePath + path == scheme + afterScheme;
    DropSchemeOf(scheme, afterScheme);
    DropWwwOf(www, site);
    SitePathStripped(path);
  }

  /** Rendering puts the base back: a url that began with exactly the base is
      recovered. */
  lemma RenderRecovers(url: string)
    requires StartsWith(url, UploadsBase)
    ensures UploadsBase + StripUploadsPrefix(url) == url
  {
    var path := url[|UploadsBase|..];
    assert url == UploadsBase + path;
    StripPrefixed("https://", "www.", path);
  }

  /** The pattern is anchored: the site path behind another host, such as
      `cdn.paullowe.org/wp-content/uploads/a.mp3`, is left in place. */
  lemma StripOtherHost(host: string, path: string)
    requires host != [] && host[0] != 'h' && host[0] != 'w' && host[0] != 'p'
    ensures StripUploadsPrefix(host + SitePath + path) == host + SitePath + path
  {
    var u := host + SitePath + path;
    assert u[0] == host[0] && SitePath[0] == 'p';
    assert !StartsWith(u, SitePath);
    assert DropScheme(u) == u;
    assert DropWww(u) == u;
  }

  /** A url without the site path is left as it is. */
  lemma StripWithoutSitePath(u: string)
    requires !Includes(u, SitePath)
    ensures StripUploadsPrefix(u) == u
  {
    var afterScheme := DropScheme(u);
    var rest := DropWww(afterScheme);
    var k := |u| - |rest|;
    assert afterScheme == u[|u| - |afterScheme|..];
    assert rest == u[k..];
    if StartsWith(rest, SitePath) {
      assert u[k..k + |SitePath|] == SitePath;
      assert OccursAt(u, SitePath, k);
      assert false;
    }
  }

  /** `src="` cannot overlap itself: an occurrence starting inside `before`
      ends inside it. */
  lemma FirstSrcAfter(before: string, rest: string)
    requires !Includes(before, SrcAttr)
    ensures FirstOccurrence(before + SrcAttr + rest, SrcAttr, 0) == Some(|before|)
  {
    var s := before + SrcAttr + rest;
    assert s[|before|..|before| + |SrcAttr|] == SrcAttr;
    forall j | 0 <= j < |before|
      ensures !OccursAt(s, SrcAttr, j)
    {
      if j + |SrcAttr| <= |before| {
        assert s[j..j + |SrcAttr|] == before[j..j + |SrcAttr|];
        assert !OccursAt(before, SrcAttr, j);
      } else {
        assert s[|before|] == 's';
        var k := |before| - j;
        assert 1 <= k < |SrcAttr|;
        assert SrcAttr[k] != 's';
      }
    }
    var r := FirstOccurrence(s, SrcAttr, 0);
    assert OccursAt(s, SrcAttr, |before|);
    assert r.Some?;
    assert r.value <= |before|;
  }

  /** The quote that closes the attribute ends the capture. */
  lemma TakeUntilQuote(url: string, rest: string)
    requires '"' !in url
    ensures TakeUntil(url + "\"" + rest, '"') == url
  {
    var s := url + "\"" + rest;
    var r := TakeUntil(s, '"');
    assert s[..|url|] == url;
    assert s[|url|] == '"';
    assert r == s[..|url|];
  }

  /** The audio path of an excerpt is the stripped url of its first `src`
      attribute. */
  lemma AudioUrlOfExcerpt(before: string, url: string, after: string)
    requires !Includes(before, SrcAttr)
    requires '"' !in url
    ensures AudioUrl(before + SrcAttr + url + "\"" + after) == StripUploadsPrefix(url)
  {
    var excerpt := before + SrcAttr + url + "\"" + after;
    assert excerpt == before + SrcAttr + (url + "\"" + after);
    FirstSrcAfter(before, url + "\"" + after);
    assert excerpt[|before| + |SrcAttr|..] == url + "\"" + after;
    TakeUntilQuote(url, after);
  }

  // ---------------------------------------------------------------- ingest and render

  /** A post as the API returns it. */
  datatype RawPost = RawPost(excerpt: string, title: string, date: string, id: int)

  /** The `map` over the fetched posts. */
  function Ingest(raw: RawPost): (r: Post)
    ensures r.id == raw.id && r.title == raw.title && r.date == raw.date
    ensures !Includes(raw.excerpt, SrcAttr) ==> r.audioUrl == ""
  {
    Post(raw.id, AudioUrl(raw.excerpt), raw.title, raw.date)
  }

  /** The `src` an entry is rendered with: the base url, then the stored path. */
  function RenderedSrc(post: Post): (r: string)
    ensures |r| == |UploadsBase| + |post.audioUrl|
    ensures r[..|UploadsBase|] == UploadsBase && r[|UploadsBase|..] == post.audioUrl
  {
    UploadsBase + post.audioUrl
  }

  /** An excerpt whose audio url is on the site, under any of the spellings
      the pattern accepts, is rendered with that file under the base url. */
  lemma IngestThenRender(before: string, scheme: string, www: string, path: string, after: string,
                         title: string, date: string, id: int)
    requires !Includes(before, SrcAttr) && '"' !in path
    requires scheme == "" || scheme == "http://" || scheme == "https://"
    requires www == "" || www == "www."
    ensures var excerpt := before + SrcAttr + (scheme + www + SitePath + path) + "\"" + after;
      RenderedSrc(Ingest(RawPost(excerpt, title, date, id))) == UploadsBase + path
  {
    var url := scheme + www + SitePath + path;
    QuoteFreeUrl(scheme, www, path);
    AudioUrlOfExcerpt(before, url, after);
    StripPrefixed(scheme, www, path);
  }

  /** None of the accepted prefixes holds a quote. */
  lemma QuoteFreeUrl(scheme: string, www: string, path: string)
    requires '"' !in path
    requires scheme == "" || scheme == "http://" || scheme == "https://"
    requires www == "" || www == "www."
    ensures '"' !in scheme + www + SitePath + path
  {
    assert '"' !in SitePath;
  }

  /** An excerpt without an audio attribute gives the bare base url. */
  lemma IngestWithoutSrc(excerpt: string, title: string, date: string, id: int)
    requires !Includes(excerpt, SrcAttr)
    ensures RenderedSrc(Ingest(RawPost(excerpt, title, date, id))) == UploadsBase
  {
  }

  // ---------------------------------------------------------------- paging

  const CategoryId := 80
  const PerPage := 99

  /** `getAllPostsFromServer(80, 99, offset)`. */
  datatype PageRequest = PageRequest(category: int, perPage: int, offset: int)

  /** `Math.ceil(totalPosts / 99)` as the loop bound: no request for a count
      that is not positive. */
  function RequestCount(total: int): (n: nat)
    ensures total <= 0 ==> n == 0
    ensures total > 0 ==> PerPage * (n - 1) < total <= PerPage * n
  {
    if total <= 0 then 0 else (total + PerPage - 1) / PerPage
  }

  /** The loop of `getStaticProps`: one request per page of 99 posts, at
      offsets 0, 99, 198, ...; every offset is within the total, and every post
      falls in the page of one request. */
  method PageRequests(total: int) returns (requests: seq<PageRequest>)
    ensures |requests| == RequestCount(total)
    ensures forall i :: 0 <= i < |requests| ==> requests[i] == PageRequest(CategoryId, PerPage, PerPage * i)
    ensures forall i :: 0 <= i < |requests| ==> 0 <= requests[i].offset < total
    ensures forall k :: 0 <= k < total ==> k / PerPage < |requests|
  {
    var count := RequestCount(total);
    requests := [];
    var i := 0;
    while i < count
      invariant 0 <= i <= count
      invariant |requests| == i
      invariant forall j :: 0 <= j < i ==> requests[j] == PageRequest(CategoryId, PerPage, PerPage * j)
    {
      requests := requests + [PageRequest(CategoryId, PerPage, PerPage * i)];
      i := i + 1;
    }
  }
}
