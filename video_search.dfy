/** The catalogue search (src/app/page.tsx): keep the videos whose lower-cased title
    contains the lower-cased search term, in catalogue order. Lower-casing covers the
    ASCII letters only. */
module VideoSearch {
  import opened Types
  import opened Seqs

  predicate IsUpper(ch: char) {
    'A' <= ch <= 'Z'
  }

  function LowerChar(ch: char): (r: char)
    ensures !IsUpper(r)
    ensures !IsUpper(ch) ==> r == ch
    ensures IsUpper(ch) ==> r as int - 'a' as int == ch as int - 'A' as int
  {
    if IsUpper(ch) then (ch as int - 'A' as int + 'a' as int) as char else ch
  }

  function Lower(s: string): (r: string)
    ensures |r| == |s|
    ensures forall i :: 0 <= i < |s| ==> r[i] == LowerChar(s[i])
    ensures forall i :: 0 <= i < |r| ==> !IsUpper(r[i])
  {
    seq(|s|, i requires 0 <= i < |s| => LowerChar(s[i]))
  }

  /** `text.includes(term)`, trying each starting position from the left. */
  function Includes(text: string, term: string): (found: bool)
    ensures |term| == 0 ==> found
    ensures found ==> |term| <= |text|
    decreases |text|
  {
    if |term| <= |text| && text[..|term|] == term then true
    else if text == [] then false
    else Includes(text[1..], term)
  }

  /** `term` is written in `text` starting at position `i`. */
  ghost predicate OccursAt(text: string, term: string, i: int) {
    0 <= i && i + |term| <= |text| && text[i..i + |term|] == term
  }

  /** The scan finds the term exactly when it occurs somewhere. */
  lemma {:induction false} IncludesIffOccurs(text: string, term: string)
    ensures Includes(text, term) <==> exists i :: OccursAt(text, term, i)
    decreases |text|
  {
    if |term| <= |text| && text[..|term|] == term {
      assert OccursAt(text, term, 0);
    } else if text != [] {
      IncludesIffOccurs(text[1..], term);
      if exists i :: OccursAt(text[1..], term, i) {
        var i :| OccursAt(text[1..], term, i);
        assert text[i + 1..i + 1 + |term|] == text[1..][i..i + |term|];
        assert OccursAt(text, term, i + 1);
      }
      if exists i :: OccursAt(text, term, i) {
        var i :| OccursAt(text, term, i);
        if i != 0 {
          assert text[1..][i - 1..i - 1 + |term|] == text[i..i + |term|];
          assert OccursAt(text[1..], term, i - 1);
        }
      }
    }
  }

  /** A text that contains a longer term contains its prefix. */
  lemma IncludesPrefix(text: string, term: string, more: string)
    requires Includes(text, term + more)
    ensures Includes(text, term)
  {
  }

  lemma LowerAppend(s: string, t: string)
    ensures Lower(s + t) == Lower(s) + Lower(t)
  {
  }

  /** Whether the search keeps a video: the lower-cased term occurs somewhere in the
      lower-cased title. */
  predicate Matches(video: Video, searchTerm: string): (matched: bool)
    ensures matched <==> exists i :: OccursAt(Lower(video.title), Lower(searchTerm), i)
  {
    IncludesIffOccurs(Lower(video.title), Lower(searchTerm));
    Includes(Lower(video.title), Lower(searchTerm))
  }

  /** `filteredVideos`. */
  function FilteredVideos(videos: seq<Video>, searchTerm: string): (r: seq<Video>)
    ensures forall v :: v in r <==> v in videos && Matches(v, searchTerm)
    ensures forall v: Video :: Matches(v, searchTerm) ==> multiset(r)[v] == multiset(videos)[v]
  {
    Filter(videos, (v: Video) => Matches(v, searchTerm))
  }

  /** The "no videos found" message appears exactly when no title matches. */
  predicate ShowsNoVideosMessage(videos: seq<Video>, searchTerm: string): (shown: bool)
    ensures shown <==> forall v :: v in videos ==> !Matches(v, searchTerm)
  {
    |FilteredVideos(videos, searchTerm)| == 0
  }

  /** The result keeps the catalogue's order and adds nothing. */
  lemma FilterKeepsOrder(videos: seq<Video>, searchTerm: string)
    ensures IsSubseq(FilteredVideos(videos, searchTerm), videos)
  {
    FilterIsSubseq(videos, (v: Video) => Matches(v, searchTerm));
  }

  /** An empty search shows the whole catalogue. */
  lemma EmptyTermKeepsAll(videos: seq<Video>)
    ensures FilteredVideos(videos, "") == videos
  {
    forall v | v in videos ensures Matches(v, "") {
      assert Lower(v.title)[..0] == Lower("");
    }
    FilterKeepsAllIff(videos, (v: Video) => Matches(v, ""));
  }

  /** Two terms that differ only in the case of their letters. */
  ghost predicate SameUpToCase(a: string, b: string) {
    |a| == |b| && forall i :: 0 <= i < |a| ==> LowerChar(a[i]) == LowerChar(b[i])
  }

  lemma CaseInsensitive(videos: seq<Video>, a: string, b: string)
    requires SameUpToCase(a, b)
    ensures FilteredVideos(videos, a) == FilteredVideos(videos, b)
  {
    assert Lower(a) == Lower(b);
    FilterSameTest(videos, (v: Video) => Matches(v, a), (v: Video) => Matches(v, b));
  }

  /** Typing more of the term can only narrow the result. */
  lemma LongerTermNarrows(videos: seq<Video>, searchTerm: string, more: string)
    ensures IsSubseq(FilteredVideos(videos, searchTerm + more), FilteredVideos(videos, searchTerm))
  {
    LowerAppend(searchTerm, more);
    forall v: Video | Matches(v, searchTerm + more) ensures Matches(v, searchTerm) {
      IncludesPrefix(Lower(v.title), Lower(searchTerm), Lower(more));
    }
    FilterStricterTest(videos, (v: Video) => Matches(v, searchTerm + more), (v: Video) => Matches(v, searchTerm));
  }
}
