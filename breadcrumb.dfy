/** components/common/bread-crumb-item.tsx: the trail of crumbs shown above a
    page, computed from the pathname and an optional page title. */
module Breadcrumb {
  import opened Types

  // ---------------------------------------------------------------------
  // `pathname.split("/")`

  /** The pieces joined back with "/" between them. */
  function Join(pieces: seq<string>): string
    requires |pieces| >= 1
  {
    if |pieces| == 1 then pieces[0] else pieces[0] + "/" + Join(pieces[1..])
  }

  predicate NoSlash(piece: string)
  {
    '/' !in piece
  }

  /** `s.split("/")`: the maximal slash-free pieces between the slashes,
      including the empty ones; there is always at least one piece. */
  function Split(s: string): (pieces: seq<string>)
    ensures |pieces| >= 1
    ensures forall k :: 0 <= k < |pieces| ==> NoSlash(pieces[k])
    ensures Join(pieces) == s
  {
    if s == [] then [""]
    else if s[0] == '/' then
      var rest := Split(s[1..]);
      assert ([""] + rest)[1..] == rest;
      [""] + rest
    else
      var rest := Split(s[1..]);
      var pieces := [[s[0]] + rest[0]] + rest[1..];
      assert pieces[1..] == rest[1..];
      assert NoSlash([s[0]] + rest[0]);
      JoinConsHead(s[0], rest);
      pieces
  }

  lemma {:induction false} JoinConsHead(c: char, pieces: seq<string>)
    requires |pieces| >= 1
    ensures Join([[c] + pieces[0]] + pieces[1..]) == [c] + Join(pieces)
  {
    var ps := [[c] + pieces[0]] + pieces[1..];
    if |pieces| > 1 {
      assert ps[1..] == pieces[1..];
    }
  }

  /** Splitting what was joined gives the pieces back, when no piece holds a
      slash. */
  lemma {:induction false} SplitJoin(pieces: seq<string>)
    requires |pieces| >= 1
    requires forall k :: 0 <= k < |pieces| ==> NoSlash(pieces[k])
    ensures Split(Join(pieces)) == pieces
    decreases |Join(pieces)|
  {
    if |pieces| == 1 {
      SplitPiece(pieces[0]);
    } else {
      var tail := pieces[1..];
      assert forall k :: 0 <= k < |tail| ==> NoSlash(tail[k]) by {
        forall k | 0 <= k < |tail| ensures NoSlash(tail[k]) {
          assert tail[k] == pieces[k + 1];
        }
      }
      SplitJoin(tail);
      SplitPrefix(pieces[0], Join(tail));
      assert [pieces[0]] + tail == pieces;
    }
  }

  /** A slash-free string splits into itself. */
  lemma {:induction false} SplitPiece(p: string)
    requires NoSlash(p)
    ensures Split(p) == [p]
  {
    if p != [] {
      assert p[0] in p;
      assert NoSlash(p[1..]) by {
        forall c | c in p[1..] ensures c != '/' {
          assert c in p;
        }
      }
      SplitPiece(p[1..]);
      assert [p[0]] + p[1..] == p;
    }
  }

  /** A slash-free piece followed by a slash starts the split. */
  lemma {:induction false} SplitPrefix(p: string, rest: string)
    requires NoSlash(p)
    ensures Split(p + "/" + rest) == [p] + Split(rest)
  {
    if p == [] {
      assert p + "/" + rest == "/" + rest;
      assert ("/" + rest)[1..] == rest;
    } else {
      var s := p + "/" + rest;
      assert p[0] in p;
      assert s[0] == p[0];
      assert s[1..] == p[1..] + "/" + rest;
      assert NoSlash(p[1..]) by {
        forall c | c in p[1..] ensures c != '/' {
          assert c in p;
        }
      }
      SplitPrefix(p[1..], rest);
      assert [p[0]] + p[1..] == p;
    }
  }

  // ---------------------------------------------------------------------
  // `.filter(Boolean)`

  /** The non-empty strings of `pieces`, in order and with their
      multiplicity. */
  function DropEmpty(pieces: seq<string>): (r: seq<string>)
    ensures forall k :: 0 <= k < |r| ==> r[k] != ""
    ensures forall p :: p in r <==> p in pieces && p != ""
    ensures forall p :: multiset(r)[p] == if p == "" then 0 else multiset(pieces)[p]
    ensures Subseq(r, pieces)
  {
    if pieces == [] then []
    else if pieces[0] == "" then
      var rest := DropEmpty(pieces[1..]);
      SubseqDropHead(rest, pieces[0], pieces[1..]);
      assert [pieces[0]] + pieces[1..] == pieces;
      rest
    else
      var rest := DropEmpty(pieces[1..]);
      assert ([pieces[0]] + rest)[1..] == rest;
      assert [pieces[0]] + pieces[1..] == pieces;
      [pieces[0]] + rest
  }

  /** `pathArray`: the slash-separated pieces of the pathname with the empty
      ones dropped, in order and with their multiplicity. */
  function Segments(pathname: string): (segments: seq<string>)
    ensures forall k :: 0 <= k < |segments| ==> segments[k] != "" && NoSlash(segments[k])
    ensures forall p :: p in segments <==> p in Split(pathname) && p != ""
    ensures forall p :: multiset(segments)[p] == if p == "" then 0 else multiset(Split(pathname))[p]
    ensures Subseq(segments, Split(pathname))
  {
    var pieces := Split(pathname);
    var segments := DropEmpty(pieces);
    assert forall k :: 0 <= k < |segments| ==> segments[k] in pieces;
    segments
  }

  lemma {:induction false} DropEmptyKeeps(pieces: seq<string>)
    requires forall k :: 0 <= k < |pieces| ==> pieces[k] != ""
    ensures DropEmpty(pieces) == pieces
  {
    if pieces != [] {
      DropEmptyKeeps(pieces[1..]);
    }
  }

  /** The pathname of a page, "/" and its non-empty slash-free segments
      joined by "/", gives back exactly those segments. */
  lemma SegmentsOfPath(segments: seq<string>)
    requires |segments| >= 1
    requires forall k :: 0 <= k < |segments| ==> segments[k] != "" && NoSlash(segments[k])
    ensures Segments("/" + Join(segments)) == segments
  {
    var pieces := [""] + segments;
    assert pieces[1..] == segments;
    assert Join(pieces) == "" + "/" + Join(segments);
    assert "" + "/" + Join(segments) == "/" + Join(segments);
    assert forall k :: 0 <= k < |pieces| ==> NoSlash(pieces[k]) by {
      forall k | 0 <= k < |pieces| ensures NoSlash(pieces[k]) {
        if k > 0 {
          assert pieces[k] == segments[k - 1];
        }
      }
    }
    SplitJoin(pieces);
    DropEmptyKeeps(segments);
  }

  // ---------------------------------------------------------------------
  // `slice` and the last element

  /** `xs.slice(0, end)`: a negative `end` counts from the back, and the
      result is clipped to the array. */
  function SliceTo(xs: seq<string>, end: int): (r: seq<string>)
  {
    if end < 0 then xs[..if |xs| + end < 0 then 0 else |xs| + end]
    else xs[..if end > |xs| then |xs| else end]
  }

  /** `itemsExceptLast`. */
  function ItemsExceptLast(segments: seq<string>): (r: seq<string>)
    ensures segments == [] ==> r == []
    ensures segments != [] ==> r + [segments[|segments| - 1]] == segments
  {
    SliceTo(segments, |segments| - 1)
  }

  /** `lastItem`: undefined for an empty array. */
  function LastItem(segments: seq<string>): (r: Option<string>)
    ensures r.None? <==> segments == []
    ensures r.Some? ==> ItemsExceptLast(segments) + [r.value] == segments
  {
    if segments == [] then None else Some(segments[|segments| - 1])
  }

  // ---------------------------------------------------------------------
  // `translatePath`

  /** `String.prototype.toLowerCase`, on ASCII letters. */
  function ToLower(s: string): (r: string)
    ensures |r| == |s|
    ensures forall k :: 0 <= k < |s| ==> r[k] == LowerChar(s[k])
  {
    if s == [] then [] else [LowerChar(s[0])] + ToLower(s[1..])
  }

  function LowerChar(c: char): char
  {
    if 'A' <= c <= 'Z' then (c as int - 'A' as int + 'a' as int) as char else c
  }

  lemma ToLowerIdempotent(s: string)
    ensures ToLower(ToLower(s)) == ToLower(s)
  {
  }

  /** `translations`: the Romanian labels of four segments. */
  const Translations: map<string, string> := map[
    "users" := "Utilizatori",
    "timeslots" := "Intervale orare",
    "bookings" := "\U{0218}edin\U{021B}e",
    "instructors" := "Instructori"]

  /** The members every plain JavaScript object inherits from
      `Object.prototype` whose names have no upper-case letter, so that a
      lower-cased segment can reach them. */
  const InheritedKeys: set<string> := {"constructor", "__proto__"}

  /** What an expression `translations[key] || path` can evaluate to: a
      string, or an inherited member (a function or an object), which is
      truthy and is no label. */
  datatype Label = Text(text: string) | InheritedMember(name: string)

  /** `translatePath` as written: `translations[key]` on a plain object also
      finds the inherited members, and `|| path` keeps them as truthy. */
  function TranslatePathAsWritten(path: string): (r: Label)
    ensures r.InheritedMember? <==> ToLower(path) in InheritedKeys
    ensures ToLower(path) in Translations ==> r == Text(Translations[ToLower(path)])
    ensures ToLower(path) !in Translations && ToLower(path) !in InheritedKeys ==> r == Text(path)
  {
    assert "constructor" !in Translations && "__proto__" !in Translations;
    var key := ToLower(path);
    if key in Translations then Text(Translations[key])
    else if key in InheritedKeys then InheritedMember(key)
    else Text(path)
  }

  /** `translatePath` with an own-property lookup: the label of a known
      segment, any other segment unchanged. */
  function TranslatePath(path: string): (shown: string)
    ensures ToLower(path) in Translations ==> shown == Translations[ToLower(path)]
    ensures ToLower(path) !in Translations ==> shown == path
  {
    var key := ToLower(path);
    if key in Translations then Translations[key] else path
  }

  /** The four known segments get their labels whatever their letter case,
      and every other segment is shown as it is. */
  lemma TranslatePathLabels(path: string)
    ensures ToLower(path) in Translations ==> TranslatePath(ToLower(path)) == TranslatePath(path)
    ensures ToLower(path) == "users" ==> TranslatePath(path) == "Utilizatori"
    ensures ToLower(path) == "timeslots" ==> TranslatePath(path) == "Intervale orare"
    ensures ToLower(path) == "bookings" ==> TranslatePath(path) == "\U{0218}edin\U{021B}e"
    ensures ToLower(path) == "instructors" ==> TranslatePath(path) == "Instructori"
    ensures ToLower(path) !in {"users", "timeslots", "bookings", "instructors"} ==> TranslatePath(path) == path
  {
    ToLowerIdempotent(path);
    var key := ToLower(path);
    assert Translations.Keys == {"users", "timeslots", "bookings", "instructors"};
    if key in Translations {
      assert TranslatePath(key) == Translations[key] == TranslatePath(path);
    }
  }

  /** The written lookup yields the label exactly when the lower-cased
      segment is not the name of an inherited member. */
  lemma TranslatePathAsWrittenDiffers(path: string)
    ensures TranslatePathAsWritten(path) == Text(TranslatePath(path)) <==> ToLower(path) !in InheritedKeys
  {
    assert "constructor" !in Translations;
    assert "__proto__" !in Translations;
  }

  /** The segment "constructor" is one such. */
  lemma ConstructorSegment()
    ensures TranslatePathAsWritten("constructor") == InheritedMember("constructor")
    ensures TranslatePath("constructor") == "constructor"
  {
    LowerCaseUnchanged("constructor");
    assert "constructor" !in Translations;
  }

  /** A string without upper-case ASCII letters is its own lower case. */
  lemma LowerCaseUnchanged(s: string)
    requires forall k :: 0 <= k < |s| ==> !('A' <= s[k] <= 'Z')
    ensures ToLower(s) == s
  {
  }

  // ---------------------------------------------------------------------
  // The trail

  /** A crumb: a link to another page, or the current page. */
  datatype Crumb = Link(href: string, caption: Label) | Page(caption: Label)

  const HomeLabel: string := "Acas\U{0103}"

  /** `title ? … : …`: an absent or empty title is falsy. */
  predicate Truthy(title: Option<string>)
  {
    title.Some? && title.value != ""
  }

  /** One link crumb per segment, each to "/" and that single segment,
      captioned by the written lookup. */
  function LinkCrumbs(items: seq<string>): (r: seq<Crumb>)
    ensures |r| == |items|
    ensures forall k :: 0 <= k < |items| ==> r[k] == Link("/" + items[k], TranslatePathAsWritten(items[k]))
  {
    if items == [] then []
    else [Link("/" + items[0], TranslatePathAsWritten(items[0]))] + LinkCrumbs(items[1..])
  }

  /** The rendered trail: the home link, one link for every segment but the
      last, and the current page, labelled by the title when it is truthy and
      by the last segment otherwise. With no segment and no truthy title the
      last segment is undefined and `toLowerCase` throws. */
  function BreadCrumbs(pathname: string, title: Option<string>): (r: Result<seq<Crumb>, string>)
    ensures r.Failure? <==> Segments(pathname) == [] && !Truthy(title)
    ensures r.Success? ==>
      var segments := Segments(pathname);
      |r.value| == |segments| + (if segments == [] then 2 else 1) &&
      r.value[0] == Link("/", Text(HomeLabel)) &&
      (forall k :: 1 <= k < |r.value| - 1 ==>
        r.value[k] == Link("/" + segments[k - 1], TranslatePathAsWritten(segments[k - 1]))) &&
      r.value[|r.value| - 1] ==
        Page(if Truthy(title) then Text(title.value) else TranslatePathAsWritten(segments[|segments| - 1]))
  {
    var pathArray := Segments(pathname);
    var itemsExceptLast := ItemsExceptLast(pathArray);
    var lastItem := LastItem(pathArray);
    if Truthy(title) then
      Success([Link("/", Text(HomeLabel))] + LinkCrumbs(itemsExceptLast) + [Page(Text(title.value))])
    else if lastItem.None? then
      Failure("TypeError")
    else
      Success([Link("/", Text(HomeLabel))] + LinkCrumbs(itemsExceptLast) +
              [Page(TranslatePathAsWritten(lastItem.value))])
  }

  /** When no segment lower-cases to an inherited member's name, every
      caption of the trail is text, and each segment's caption is the
      own-property label of that segment. */
  lemma BreadCrumbsIntended(pathname: string, title: Option<string>)
    requires forall k :: 0 <= k < |Segments(pathname)| ==> ToLower(Segments(pathname)[k]) !in InheritedKeys
    ensures BreadCrumbs(pathname, title).Success? ==>
      var crumbs := BreadCrumbs(pathname, title).value;
      var segments := Segments(pathname);
      (forall k :: 0 <= k < |crumbs| ==> crumbs[k].caption.Text?) &&
      (forall k :: 1 <= k < |crumbs| - 1 ==>
        crumbs[k] == Link("/" + segments[k - 1], Text(TranslatePath(segments[k - 1])))) &&
      (!Truthy(title) ==> crumbs[|crumbs| - 1] == Page(Text(TranslatePath(segments[|segments| - 1]))))
  {
    var r := BreadCrumbs(pathname, title);
    var segments := Segments(pathname);
    forall k | 0 <= k < |segments|
      ensures TranslatePathAsWritten(segments[k]) == Text(TranslatePath(segments[k]))
    {
      TranslatePathAsWrittenDiffers(segments[k]);
    }
    if r.Success? {
      var crumbs := r.value;
      forall k | 1 <= k < |crumbs| - 1
        ensures crumbs[k] == Link("/" + segments[k - 1], Text(TranslatePath(segments[k - 1])))
      {
        assert crumbs[k] == Link("/" + segments[k - 1], TranslatePathAsWritten(segments[k - 1]));
      }
      forall k | 0 <= k < |crumbs| ensures crumbs[k].caption.Text? {
        if 1 <= k < |crumbs| - 1 {
          assert crumbs[k].caption == Text(TranslatePath(segments[k - 1]));
        }
      }
    }
  }

  /** A page whose last segment lower-cases to an inherited member's name,
      reached with no title, gets that member as the caption of its page
      crumb. */
  lemma InheritedPageCrumb(segments: seq<string>)
    requires |segments| >= 1
    requires forall k :: 0 <= k < |segments| ==> segments[k] != "" && NoSlash(segments[k])
    requires ToLower(segments[|segments| - 1]) in InheritedKeys
    ensures BreadCrumbs("/" + Join(segments), None).Success?
    ensures var crumbs := BreadCrumbs("/" + Join(segments), None).value;
      |crumbs| == |segments| + 1 &&
      crumbs[|segments|] == Page(InheritedMember(ToLower(segments[|segments| - 1])))
  {
    SegmentsOfPath(segments);
  }

}
