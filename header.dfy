/**
  The logic of components/Header/Header.tsx: the search box's tokenisation,
  the category select, the number-of-posts input, and the scroll listener's
  state step that decides whether the header is shrunk or hidden.
*/
module Header {
  import opened JsText
  import opened Numbers
  import opened JsArray

  // ---------------------------------------------------------------- search

  /** `Boolean` as a filter on strings: the empty string is falsy. */
  function Boolean(): (r: string -> bool)
    ensures !r("")
    ensures forall s :: s != "" ==> r(s)
  {
    s => s != ""
  }

  /** `value.trim().split(" ").filter(Boolean)`. */
  function SearchTerms(value: string): (terms: seq<string>)
    ensures forall i :: 0 <= i < |terms| ==> terms[i] != "" && ' ' !in terms[i]
  {
    var pieces := Split(Trim(value), ' ');
    KeptPieces(pieces);
    Filter(pieces, Boolean())
  }

  /** Pieces without a space that pass `Boolean` are non-empty and without a space. */
  lemma KeptPieces(pieces: seq<string>)
    requires forall i :: 0 <= i < |pieces| ==> ' ' !in pieces[i]
    ensures var terms := Filter(pieces, Boolean());
      forall i :: 0 <= i < |terms| ==> terms[i] != "" && ' ' !in terms[i]
  {
    var terms := Filter(pieces, Boolean());
    forall i | 0 <= i < |terms|
      ensures terms[i] != "" && ' ' !in terms[i]
    {
      assert terms[i] in pieces;
    }
  }

  /** `s` with every `c` deleted. */
  function Without(s: string, c: char): (r: string)
    ensures c !in r
  {
    if s == [] then [] else (if s[0] == c then [] else [s[0]]) + Without(s[1..], c)
  }

  /** `parts.join("")` takes the first part and then the rest. */
  lemma JoinNoSeparator(parts: seq<string>)
    requires parts != []
    ensures Join(parts, "") == parts[0] + Join(parts[1..], "")
  {
  }

  /** Empty pieces add nothing to the concatenation. */
  lemma {:induction false} ConcatDropsEmpty(parts: seq<string>)
    ensures Join(Filter(parts, Boolean()), "") == Join(parts, "")
  {
    if parts != [] {
      ConcatDropsEmpty(parts[1..]);
      JoinNoSeparator(parts);
      var kept := Filter(parts[1..], Boolean());
      if parts[0] != "" {
        assert Filter(parts, Boolean()) == [parts[0]] + kept;
        JoinNoSeparator([parts[0]] + kept);
        assert ([parts[0]] + kept)[1..] == kept;
      } else {
        assert Filter(parts, Boolean()) == kept;
      }
    }
  }

  /** The pieces of a split, put back together, are the text without its separators. */
  lemma {:induction false} ConcatSplit(s: string, c: char)
    ensures Join(Split(s, c), "") == Without(s, c)
  {
    if s != [] {
      var rest := Split(s[1..], c);
      ConcatSplit(s[1..], c);
      JoinNoSeparator(rest);
      if s[0] == c {
        assert Split(s, c) == [[]] + rest;
        JoinNoSeparator([[]] + rest);
        assert ([[]] + rest)[1..] == rest;
        assert Without(s, c) == Without(s[1..], c);
      } else {
        var parts := [[s[0]] + rest[0]] + rest[1..];
        assert Split(s, c) == parts;
        JoinNoSeparator(parts);
        assert parts[1..] == rest[1..];
        assert Without(s, c) == [s[0]] + Without(s[1..], c);
        ConcatAssoc([s[0]], rest[0], Join(rest[1..], ""));
      }
    }
  }

  /** The search terms, concatenated in order, are the trimmed input without its spaces. */
  lemma SearchTermsConcat(value: string)
    ensures Join(SearchTerms(value), "") == Without(Trim(value), ' ')
  {
    ConcatDropsEmpty(Split(Trim(value), ' '));
    ConcatSplit(Trim(value), ' ');
  }

  /** `Without` leaves nothing exactly when the text is all `c`. */
  lemma {:induction false} WithoutEmpty(s: string, c: char)
    ensures Without(s, c) == [] <==> forall i :: 0 <= i < |s| ==> s[i] == c
  {
    if s != [] {
      WithoutEmpty(s[1..], c);
      if s[0] == c {
        assert forall i :: 1 <= i < |s| ==> s[i] == s[1..][i - 1];
      }
    }
  }

  /** A search of white space only gives no terms, and only such a search does. */
  lemma SearchTermsBlank(value: string)
    ensures SearchTerms(value) == [] <==> forall i :: 0 <= i < |value| ==> IsJsWhitespace(value[i])
  {
    var t := Trim(value);
    TrimEmpty(value);
    if t == [] {
      assert Split(t, ' ') == [[]];
      assert Filter([[]], Boolean()) == [];
    } else {
      TrimEnds(value);
      SearchTermsConcat(value);
      WithoutEmpty(t, ' ');
      assert t[0] != ' ';
      assert Without(t, ' ') != [];
    }
  }

  // ---------------------------------------------------------------- category and count

  /** `e.target.value === "all" ? [] : [Number(e.target.value)]`. */
  function CategorySelection(value: string): (ids: seq<Number>)
    ensures |ids| <= 1
    ensures ids == [] <==> value == "all"
    ensures value != "all" ==> ids == [StringToNumber(value)]
  {
    if value == "all" then [] else [StringToNumber(value)]
  }

  /** An option's value is the category id written out, and selecting it gives that id back. */
  lemma CategoryOptionRoundTrip(id: int)
    ensures CategorySelection(IntToDecimal(id)) == [Finite(id)]
  {
    var s := IntToDecimal(id);
    assert s[0] == '-' || IsDigit(s[0]);
    assert s != "all";
    StringToNumberOfDecimal(id);
  }

  /** `Number(e.target.value)` for the number of posts: a number input holds a
      numeral or, once cleared, the empty string. */
  function NumberOfPostsChange(value: string): (r: Number)
    ensures value != [] && AllDigits(value) ==> r == Finite(DecimalValue(value))
    ensures value == "" ==> r == Finite(0)
  {
    if value != [] && AllDigits(value) then
      assert !IsJsWhitespace(value[0]) && !IsJsWhitespace(value[|value| - 1]);
      assert TrimStart(value) == value && Trim(value) == value;
      StringToNumber(value)
    else StringToNumber(value)
  }

  lemma NumberOfPostsInput(n: nat)
    ensures NumberOfPostsChange(NatToDecimal(n)) == Finite(n)
    ensures NumberOfPostsChange("") == Finite(0)
  {
    StringToNumberOfDecimal(n);
  }

  // ---------------------------------------------------------------- scroll

  /** `innerHeight + scrollY < scrollHeight - 50`: not within the bounce margin of the bottom. */
  predicate NotAtBottom(scrollY: int, innerHeight: int, scrollHeight: int): (r: bool)
    ensures r <==> scrollHeight - (scrollY + innerHeight) > 50
  {
    innerHeight + scrollY < scrollHeight - 50
  }

  /** The header's scroll state: the two flags React holds, the measured height,
      and the listener's `lastScrollY`. A new listener is attached whenever the
      height changes, and it starts from the scroll position of that moment. */
  class ScrollState {
    var isScrolled: bool
    var isScrolledAndHide: bool
    var height: nat
    var lastScrollY: int

    /** A hidden header is always a shrunk one. */
    predicate Valid()
      reads this
    {
      isScrolledAndHide ==> isScrolled
    }

    constructor (height: nat, scrollY: int)
      ensures Valid()
      ensures !isScrolled && !isScrolledAndHide
      ensures this.height == height && lastScrollY == scrollY
    {
      isScrolled := false;
      isScrolledAndHide := false;
      this.height := height;
      lastScrollY := scrollY;
    }

    /** `handleScroll`: away from the bottom the flags follow the new position;
        the position is remembered in every case. */
    method HandleScroll(scrollY: int, innerHeight: int, scrollHeight: int)
      requires Valid()
      modifies this
      ensures Valid()
      ensures lastScrollY == scrollY && height == old(height)
      ensures NotAtBottom(scrollY, innerHeight, scrollHeight) ==>
        isScrolled == (scrollY > height)
        && isScrolledAndHide == (scrollY > old(lastScrollY) && scrollY > height * 5)
      ensures !NotAtBottom(scrollY, innerHeight, scrollHeight) ==>
        isScrolled == old(isScrolled) && isScrolledAndHide == old(isScrolledAndHide)
    {
      var scrollingUp := scrollY > lastScrollY;
      if NotAtBottom(scrollY, innerHeight, scrollHeight) {
        isScrolledAndHide := scrollingUp && scrollY > height * 5;
        isScrolled := scrollY > height;
      }
      lastScrollY := scrollY;
    }

    /** The resize listener measures the header again; a new height re-attaches
        the scroll listener, which starts from the current position. */
    method Resize(offsetHeight: nat, scrollY: int)
      requires Valid()
      modifies this
      ensures Valid()
      ensures height == offsetHeight
      ensures isScrolled == old(isScrolled) && isScrolledAndHide == old(isScrolledAndHide)
      ensures lastScrollY == if offsetHeight != old(height) then scrollY else old(lastScrollY)
    {
      if offsetHeight != height {
        height := offsetHeight;
        lastScrollY := scrollY;
      }
    }
  }
}
