/**
 * The public post list: a title search and an order by creation date. The list handed in is
 * copied first, so the page's own array is never reordered.
 */
module PostsList {
  import opened Base
  import opened Json
  import opened Text
  import opened Lists
  import opened Sorting

  /** A listed post; `createdAt` is the instant `new Date(created_at)` reads. */
  datatype ListedPost = ListedPost(id: Value, title: string, content: string,
                                   tags: Option<seq<string>>, createdAt: int)

  /** `post.title.toLowerCase().includes(search.toLowerCase())`. */
  predicate Matches(post: ListedPost, search: string) {
    Contains(Lower(post.title), Lower(search))
  }

  /** The search step: an empty search keeps every post. */
  function Searched(posts: seq<ListedPost>, search: string): (r: seq<ListedPost>)
    ensures search == "" ==> r == posts
    ensures Subsequence(r, posts)
    ensures forall i :: 0 <= i < |r| ==> Matches(r[i], search)
    ensures forall i :: 0 <= i < |posts| && Matches(posts[i], search) ==> posts[i] in r
    ensures forall p :: multiset(r)[p] == if Matches(p, search) then multiset(posts)[p] else 0
  {
    FilterIsSubsequence(posts, (p: ListedPost) => Matches(p, search));
    FilterCounts(posts, (p: ListedPost) => Matches(p, search));
    if search == "" then
      FilterKeepsAll(posts, (p: ListedPost) => Matches(p, search));
      posts
    else Filter(posts, (p: ListedPost) => Matches(p, search))
  }

  /** The comparator `d2 - d1`: a post sorts before another that is not newer. */
  predicate NewestFirst(a: ListedPost, b: ListedPost) {
    b.createdAt - a.createdAt <= 0
  }

  /** The comparator `d1 - d2`: a post sorts before another that is not older. */
  predicate OldestFirst(a: ListedPost, b: ListedPost) {
    a.createdAt - b.createdAt <= 0
  }

  lemma OrdersAreTotalPreorders()
    ensures TotalPreorder(NewestFirst) && TotalPreorder(OldestFirst)
  {
  }

  /** The list the page shows for a filter value and a search. */
  function Filtered(posts: seq<ListedPost>, filter: string, search: string): (r: seq<ListedPost>)
    ensures multiset(r) == multiset(Searched(posts, search))
    ensures filter == "newest" ==> forall i, j :: 0 <= i < j < |r| ==> r[i].createdAt >= r[j].createdAt
    ensures filter == "oldest" ==> forall i, j :: 0 <= i < j < |r| ==> r[i].createdAt <= r[j].createdAt
    ensures filter != "newest" && filter != "oldest" ==> r == Searched(posts, search)
  {
    var sortedPosts := Searched(posts, search);
    OrdersAreTotalPreorders();
    if filter == "newest" then
      SortByPermutes(sortedPosts, NewestFirst);
      SortBySorted(sortedPosts, NewestFirst);
      SortBy(sortedPosts, NewestFirst)
    else if filter == "oldest" then
      SortByPermutes(sortedPosts, OldestFirst);
      SortBySorted(sortedPosts, OldestFirst);
      SortBy(sortedPosts, OldestFirst)
    else sortedPosts
  }

  /** Posts of the same instant keep their list order under either date order. */
  lemma DateOrdersAreStable(posts: seq<ListedPost>, search: string, k: ListedPost)
    ensures EqualTo(Filtered(posts, "newest", search), k, NewestFirst) == EqualTo(Searched(posts, search), k, NewestFirst)
    ensures EqualTo(Filtered(posts, "oldest", search), k, OldestFirst) == EqualTo(Searched(posts, search), k, OldestFirst)
  {
    OrdersAreTotalPreorders();
    SortByStable(Searched(posts, search), k, NewestFirst);
    SortByStable(Searched(posts, search), k, OldestFirst);
  }

  /** No two positions hold posts of the same instant. */
  ghost predicate DistinctTimes(s: seq<ListedPost>) {
    forall i, j :: 0 <= i < j < |s| ==> s[i].createdAt != s[j].createdAt
  }

  function Reverse<T>(s: seq<T>): (r: seq<T>)
    ensures |r| == |s| && forall i :: 0 <= i < |s| ==> r[i] == s[|s| - 1 - i]
    ensures multiset(r) == multiset(s)
  {
    if s == [] then [] else
      var r := Reverse(s[1..]) + [s[0]];
      assert s == [s[0]] + s[1..];
      r
  }

  /** When no two posts share an instant, "oldest" shows exactly the reverse of "newest". */
  lemma OldestReversesNewest(posts: seq<ListedPost>, search: string)
    requires DistinctTimes(posts)
    ensures Filtered(posts, "oldest", search) == Reverse(Filtered(posts, "newest", search))
  {
    var s := Searched(posts, search);
    SubsequenceKeepsDistinct(s, posts);
    var oldest := Filtered(posts, "oldest", search);
    var newest := Filtered(posts, "newest", search);
    PermutationKeepsDistinct(newest, s);
    var rev := Reverse(newest);
    OrdersAreTotalPreorders();
    assert StrictlySorted(rev, OldestFirst);
    SortedUnique(rev, oldest, OldestFirst);
  }

  lemma {:induction false} SubsequenceKeepsDistinct(r: seq<ListedPost>, s: seq<ListedPost>)
    requires Subsequence(r, s) && DistinctTimes(s)
    ensures DistinctTimes(r)
    ensures forall i :: 0 <= i < |r| ==> r[i] in s
    decreases |s|
  {
    if r != [] {
      assert DistinctTimes(s[1..]) by {
        forall i, j | 0 <= i < j < |s[1..]| ensures s[1..][i].createdAt != s[1..][j].createdAt {
          assert s[1..][i] == s[i + 1] && s[1..][j] == s[j + 1];
        }
      }
      if r[0] == s[0] && Subsequence(r[1..], s[1..]) {
        SubsequenceKeepsDistinct(r[1..], s[1..]);
        forall i, j | 0 <= i < j < |r| ensures r[i].createdAt != r[j].createdAt {
          if i == 0 {
            assert r[j] == r[1..][j - 1] && r[j] in s[1..];
            var m :| 0 <= m < |s[1..]| && s[1..][m] == r[j];
            assert s[m + 1] == r[j];
          } else {
            assert r[i] == r[1..][i - 1] && r[j] == r[1..][j - 1];
          }
        }
        forall i | 0 <= i < |r| ensures r[i] in s {
          if i > 0 { assert r[i] == r[1..][i - 1]; }
        }
      } else {
        SubsequenceKeepsDistinct(r, s[1..]);
      }
    }
  }

  /** A post occurs at most once in a list of distinct instants. */
  lemma {:induction false} DistinctCount(s: seq<ListedPost>, x: ListedPost)
    requires DistinctTimes(s)
    ensures multiset(s)[x] <= 1
    decreases |s|
  {
    if s != [] {
      assert s == [s[0]] + s[1..];
      assert DistinctTimes(s[1..]) by {
        forall i, j | 0 <= i < j < |s[1..]| ensures s[1..][i].createdAt != s[1..][j].createdAt {
          assert s[1..][i] == s[i + 1] && s[1..][j] == s[j + 1];
        }
      }
      DistinctCount(s[1..], x);
      if s[0] == x {
        assert x !in s[1..] by {
          forall m | 0 <= m < |s[1..]| ensures s[1..][m] != x {
            assert s[1..][m] == s[m + 1];
          }
        }
      }
    }
  }

  /** A rearrangement of a list of distinct instants has distinct instants. */
  lemma PermutationKeepsDistinct(r: seq<ListedPost>, s: seq<ListedPost>)
    requires multiset(r) == multiset(s) && DistinctTimes(s)
    ensures DistinctTimes(r)
  {
    forall i, j | 0 <= i < j < |r| ensures r[i].createdAt != r[j].createdAt {
      assert r[i] in multiset(s) && r[j] in multiset(s);
      var p :| 0 <= p < |s| && s[p] == r[i];
      var q :| 0 <= q < |s| && s[q] == r[j];
      if p == q {
        TwoCopies(r, i, j);
        DistinctCount(s, r[i]);
        assert false;
      } else if p < q {
        assert s[p].createdAt != s[q].createdAt;
      } else {
        assert s[q].createdAt != s[p].createdAt;
      }
    }
  }

  lemma TwoCopies(r: seq<ListedPost>, i: nat, j: nat)
    requires i < j < |r| && r[i] == r[j]
    ensures multiset(r)[r[i]] >= 2
  {
    assert r == r[..j] + [r[j]] + r[j + 1..];
    assert r[i] in r[..j];
    assert multiset(r) == multiset(r[..j]) + multiset{r[j]} + multiset(r[j + 1..]);
  }
}
