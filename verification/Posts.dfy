/** Blog posts: the publication state machine behind the admin pages and the public list. */
module Posts {
  import opened Options
  import opened Tables

  datatype PostRow = PostRow(id: RowId, slug: string, text: string, publishedAt: Option<Time>)

  /** The form: `text` stands for title, body, excerpt and cover together. */
  datatype Body = Body(slug: string, text: string, published: bool)

  datatype Op =
    | Create(id: RowId, body: Body, now: Time)
    | Update(id: RowId, body: Body, now: Time)
    | Delete(id: RowId)

  function Position(posts: seq<PostRow>, id: RowId): (r: Option<nat>)
    ensures r.Some? ==> r.value < |posts| && posts[r.value].id == id
    ensures r.None? <==> forall i :: 0 <= i < |posts| ==> posts[i].id != id
  {
    if posts == [] then None
    else if posts[|posts| - 1].id == id then Some(|posts| - 1)
    else Position(posts[..|posts| - 1], id)
  }

  predicate SlugFree(posts: seq<PostRow>, slug: string, except: RowId) {
    forall i :: 0 <= i < |posts| ==> posts[i].slug == slug ==> posts[i].id == except
  }

  function NewStamp(old_: Option<Time>, published: bool, now: Time): Option<Time> {
    if published && old_.None? then Some(now)
    else if !published then None
    else old_
  }

  function Edited(row: PostRow, body: Body, now: Time): PostRow {
    PostRow(row.id, body.slug, body.text, NewStamp(row.publishedAt, body.published, now))
  }

  /** Row `i` says what the form says and keeps its id; its stamp is set when it was not published
      and now is, cleared when it now is not, and otherwise kept.  No other row changes. */
  ghost predicate Saves(was: seq<PostRow>, posts: seq<PostRow>, i: nat, body: Body, now: Time) {
    && i < |was| && |posts| == |was| && (forall j :: 0 <= j < |was| && j != i ==> posts[j] == was[j])
    && posts[i].id == was[i].id && posts[i].slug == body.slug && posts[i].text == body.text
    && (!body.published ==> posts[i].publishedAt == None)
    && (body.published && was[i].publishedAt == None ==> posts[i].publishedAt == Some(now))
    && (body.published && was[i].publishedAt != None ==> posts[i].publishedAt == was[i].publishedAt)
  }

  /** What one admin call does; a duplicate slug or id is rejected by its index. */
  function Do(posts: seq<PostRow>, op: Op): (seq<PostRow>, nat) {
    match op
    case Create(id, body, now) =>
      if Position(posts, id).Some? || !SlugFree(posts, body.slug, id) then (posts, 500)
      else (posts + [PostRow(id, body.slug, body.text, if body.published then Some(now) else None)], 200)
    case Update(id, body, now) =>
      var at := Position(posts, id);
      if at.None? then (posts, 404)
      else if !SlugFree(posts, body.slug, id) then (posts, 500)
      else (posts[at.value := Edited(posts[at.value], body, now)], 200)
    case Delete(id) =>
      var at := Position(posts, id);
      if at.None? then (posts, 404) else (posts[..at.value] + posts[at.value + 1..], 200)
  }

  function After(run: seq<Op>): seq<PostRow> {
    if run == [] then [] else Do(After(run[..|run| - 1]), run[|run| - 1]).0
  }

  class PostDesk {
    var posts: seq<PostRow>

    constructor (posts: seq<PostRow>)
      ensures this.posts == posts
    {
      this.posts := posts;
    }

    method CreatePost(id: RowId, body: Body, now: Time) returns (code: nat)
      modifies this
      ensures (posts, code) == Do(old(posts), Create(id, body, now))
      ensures code == 200 <==> forall i :: 0 <= i < |old(posts)| ==>
                                 old(posts)[i].id != id && old(posts)[i].slug != body.slug
      ensures code == 200 ==>
                && posts[..|posts| - 1] == old(posts) && posts[|posts| - 1].id == id
                && posts[|posts| - 1].slug == body.slug && posts[|posts| - 1].text == body.text
                && (posts[|posts| - 1].publishedAt.Some? <==> body.published)
                && (body.published ==> posts[|posts| - 1].publishedAt == Some(now))
      ensures code != 200 ==> posts == old(posts)
    {
      var at := Position(posts, id);
      if at.Some? || !SlugFree(posts, body.slug, id) {
        return 500;
      }
      var stamp := None;
      if body.published {
        stamp := Some(now);
      }
      posts := posts + [PostRow(id, body.slug, body.text, stamp)];
      return 200;
    }

    method UpdatePost(id: RowId, body: Body, now: Time) returns (code: nat)
      modifies this
      ensures (posts, code) == Do(old(posts), Update(id, body, now))
      ensures code == 404 <==> forall i :: 0 <= i < |old(posts)| ==> old(posts)[i].id != id
      ensures code != 404 ==>
                (code == 500 <==> exists i :: 0 <= i < |old(posts)|
                                              && old(posts)[i].slug == body.slug && old(posts)[i].id != id)
      ensures code == 404 || code == 500 || code == 200
      ensures code != 200 ==> posts == old(posts)
      ensures code == 200 ==>
                exists i :: 0 <= i < |old(posts)| && old(posts)[i].id == id && Saves(old(posts), posts, i, body, now)
    {
      var at := Position(posts, id);
      if at.None? {
        return 404;
      }
      var row := posts[at.value];
      row := row.(slug := body.slug, text := body.text);
      if body.published && row.publishedAt.None? {
        row := row.(publishedAt := Some(now));
      } else if !body.published {
        row := row.(publishedAt := None);
      }
      if !SlugFree(posts, body.slug, id) {
        return 500;
      }
      posts := posts[at.value := row];
      return 200;
    }

    method DeletePost(id: RowId) returns (code: nat)
      modifies this
      ensures (posts, code) == Do(old(posts), Delete(id))
      ensures code == 404 <==> forall i :: 0 <= i < |old(posts)| ==> old(posts)[i].id != id
      ensures code == 404 ==> posts == old(posts)
      ensures code != 404 ==> code == 200 && |posts| == |old(posts)| - 1
      ensures DistinctIds(old(posts)) ==> forall p :: p in posts <==> p in old(posts) && p.id != id
    {
      var at := Position(posts, id);
      if at.None? {
        return 404;
      }
      WithoutOne(posts, at.value);
      posts := posts[..at.value] + posts[at.value + 1..];
      return 200;
    }
  }

  lemma WithoutOne(posts: seq<PostRow>, k: nat)
    requires k < |posts|
    ensures DistinctIds(posts) ==>
              forall p :: p in posts[..k] + posts[k + 1..] <==> p in posts && p.id != posts[k].id
  {
    var out := posts[..k] + posts[k + 1..];
    if DistinctIds(posts) {
      forall p | p in posts && p.id != posts[k].id ensures p in out {
        var i :| 0 <= i < |posts| && posts[i] == p;
        assert out[if i < k then i else i - 1] == p;
      }
    }
  }

  // ---- The publication stamp ----

  datatype Edit = Edit(at: Time, published: bool)

  /** The accepted saves of a post since it was created, oldest first. */
  function Edits(run: seq<Op>, id: RowId): seq<Edit> {
    if run == [] then []
    else
      var before, op := run[..|run| - 1], run[|run| - 1];
      if op.id != id || Do(After(before), op).1 != 200 then Edits(before, id)
      else
        match op
        case Create(_, body, now) => [Edit(now, body.published)]
        case Update(_, body, now) => Edits(before, id) + [Edit(now, body.published)]
        case Delete(_) => []
  }

  /** `at` is when the current unbroken run of published saves began. */
  predicate StartsStreak(edits: seq<Edit>, j: nat) {
    && j < |edits|
    && (forall k :: j <= k < |edits| ==> edits[k].published)
    && (j > 0 ==> !edits[j - 1].published)
  }

  predicate DistinctIds(posts: seq<PostRow>) {
    forall i, j :: 0 <= i < j < |posts| ==> posts[i].id != posts[j].id
  }

  predicate DistinctSlugs(posts: seq<PostRow>) {
    forall i, j :: 0 <= i < j < |posts| ==> posts[i].slug != posts[j].slug
  }

  lemma StepKeepsKeys(posts: seq<PostRow>, op: Op)
    requires DistinctIds(posts) && DistinctSlugs(posts)
    ensures DistinctIds(Do(posts, op).0) && DistinctSlugs(Do(posts, op).0)
  {
    var at := Position(posts, op.id);
    match op
    case Create(id, body, now) =>
      hide Position;
    case Update(id, body, now) =>
      hide Position;
      if at.Some? {
        SavedKeysDistinct(posts, at.value, Edited(posts[at.value], body, now));
      }
    case Delete(id) =>
      hide Position;
      if at.Some? {
        RestKeysDistinct(posts, at.value);
      }
  }

  lemma SavedKeysDistinct(posts: seq<PostRow>, k: nat, row: PostRow)
    requires DistinctIds(posts) && DistinctSlugs(posts) && k < |posts| && row.id == posts[k].id
    ensures DistinctIds(posts[k := row])
    ensures SlugFree(posts, row.slug, row.id) ==> DistinctSlugs(posts[k := row])
  {
    assert forall i :: 0 <= i < |posts| && i != k ==> posts[i].id != row.id;
  }

  lemma RestKeysDistinct(posts: seq<PostRow>, k: nat)
    requires DistinctIds(posts) && DistinctSlugs(posts) && k < |posts|
    ensures DistinctIds(posts[..k] + posts[k + 1..]) && DistinctSlugs(posts[..k] + posts[k + 1..])
  {
    var out := posts[..k] + posts[k + 1..];
    assert forall i :: 0 <= i < |out| ==> out[i] == posts[if i < k then i else i + 1];
  }

  lemma {:induction false} KeysStayDistinct(run: seq<Op>)
    ensures DistinctIds(After(run)) && DistinctSlugs(After(run))
  {
    if run != [] {
      KeysStayDistinct(run[..|run| - 1]);
      StepKeepsKeys(After(run[..|run| - 1]), run[|run| - 1]);
    }
  }

  ghost predicate StampOk(stamp: Option<Time>, edits: seq<Edit>) {
    && edits != []
    && (stamp.None? <==> !edits[|edits| - 1].published)
    && (stamp.Some? ==> exists j: nat :: StartsStreak(edits, j) && edits[j].at == stamp.value)
  }

  lemma StampAfterEdit(stamp: Option<Time>, edits: seq<Edit>, published: bool, now: Time)
    requires StampOk(stamp, edits)
    ensures StampOk(NewStamp(stamp, published, now), edits + [Edit(now, published)])
  {
    var all := edits + [Edit(now, published)];
    if published {
      if stamp.None? {
        assert StartsStreak(all, |edits|);
      } else {
        var j: nat :| StartsStreak(edits, j) && edits[j].at == stamp.value;
        assert StartsStreak(all, j) && all[j].at == stamp.value;
      }
    }
  }

  datatype Origin = Kept | Made | Saved

  /** Where a row comes from in one call: kept from position k, newly made, or position k saved. */
  lemma RowOrigin(posts: seq<PostRow>, op: Op, i: nat) returns (origin: Origin, k: nat)
    requires DistinctIds(posts) && i < |Do(posts, op).0|
    ensures var (out, code) := Do(posts, op);
            match origin
            case Kept => k < |posts| && out[i] == posts[k] && (op.id != posts[k].id || code != 200)
            case Made => code == 200 && op.Create? && out[i].id == op.id
                         && out[i].publishedAt == if op.body.published then Some(op.now) else None
            case Saved => code == 200 && op.Update? && k < |posts| && posts[k].id == op.id
                          && out[i] == Edited(posts[k], op.body, op.now)
  {
    var (out, code) := Do(posts, op);
    if code != 200 {
      return Kept, i;
    }
    match op
    case Create(id, body, now) => return if i == |posts| then Made else Kept, i;
    case Update(id, body, now) => return if posts[i].id == id then Saved else Kept, i;
    case Delete(id) =>
      var at := Position(posts, id).value;
      return Kept, if at <= i then i + 1 else i;
  }

  /** `published_at` is always the start of the post's current unbroken published period, and
      empty exactly when its last save was unpublished. */
  lemma {:induction false} StampIsStartOfStreak(run: seq<Op>, i: nat)
    requires i < |After(run)|
    ensures StampOk(After(run)[i].publishedAt, Edits(run, After(run)[i].id))
  {
    var before, op := run[..|run| - 1], run[|run| - 1];
    KeysStayDistinct(before);
    var origin, k := RowOrigin(After(before), op, i);
    hide Do, StampOk, DistinctIds, DistinctSlugs;
    match origin
    case Kept =>
      StampIsStartOfStreak(before, k);
    case Made =>
      FirstStamp(op.body.published, op.now);
    case Saved =>
      StampIsStartOfStreak(before, k);
      StampAfterEdit(After(before)[k].publishedAt, Edits(before, op.id), op.body.published, op.now);
  }

  lemma FirstStamp(published: bool, now: Time)
    ensures StampOk(if published then Some(now) else None, [Edit(now, published)])
  {
    assert published ==> StartsStreak([Edit(now, true)], 0);
  }

  // ---- The public list ----

  /** How often a post belongs in the list: as often as in the table, if published at all. */
  function Listings(posts: seq<PostRow>, p: PostRow): nat {
    if p.publishedAt.Some? then multiset(posts)[p] else 0
  }

  function Published(posts: seq<PostRow>): (r: seq<PostRow>)
    ensures forall p :: p in r <==> p in posts && p.publishedAt.Some?
  {
    if posts == [] then []
    else if posts[0].publishedAt.Some? then [posts[0]] + Published(posts[1..])
    else Published(posts[1..])
  }

  lemma {:induction false} PublishedOnce(posts: seq<PostRow>)
    ensures forall p :: multiset(Published(posts))[p] == if p.publishedAt.Some? then multiset(posts)[p] else 0
  {
    if posts != [] {
      PublishedOnce(posts[1..]);
      assert posts == [posts[0]] + posts[1..];
    }
  }

  predicate Newer(p: PostRow, q: PostRow) {
    p.publishedAt.Some? && q.publishedAt.Some? && p.publishedAt.value >= q.publishedAt.value
  }

  /** What ORDER BY may return: the published rows, each as often as it is in the table, newest
      first; rows published at the same time in any order. */
  ghost predicate IsListing(posts: seq<PostRow>, listing: seq<PostRow>) {
    && (forall p :: multiset(listing)[p] == Listings(posts, p))
    && (forall i, j :: 0 <= i <= j < |listing| ==> Newer(listing[i], listing[j]))
  }

  ghost predicate DistinctTimes(posts: seq<PostRow>) {
    forall p, q :: p in posts && q in posts && Newer(p, q) && Newer(q, p) ==> p == q
  }

  function Page(listing: seq<PostRow>, limit: nat, offset: nat): seq<PostRow> {
    if offset >= |listing| then []
    else if offset + limit >= |listing| then listing[offset..]
    else listing[offset..offset + limit]
  }

  lemma SameHead(a: seq<PostRow>, b: seq<PostRow>)
    requires a != [] && b != [] && multiset(a) == multiset(b) && DistinctTimes(a)
    requires forall i, j :: 0 <= i <= j < |a| ==> Newer(a[i], a[j])
    requires forall i, j :: 0 <= i <= j < |b| ==> Newer(b[i], b[j])
    ensures a[0] == b[0]
  {
    assert a[0] in multiset(b) && b[0] in multiset(a);
    var i :| 0 <= i < |b| && b[i] == a[0];
    var j :| 0 <= j < |a| && a[j] == b[0];
    assert Newer(a[0], a[j]) && Newer(b[0], b[i]);
  }

  lemma TailMultiset(s: seq<PostRow>)
    requires s != []
    ensures multiset(s[1..]) == multiset(s) - multiset{s[0]} && s == [s[0]] + s[1..]
  {
    assert s == [s[0]] + s[1..];
  }

  /** Two newest-first lists of the same posts are the same list. */
  lemma {:induction false} SortedIsUnique(a: seq<PostRow>, b: seq<PostRow>)
    requires multiset(a) == multiset(b) && DistinctTimes(a)
    requires forall i, j :: 0 <= i <= j < |a| ==> Newer(a[i], a[j])
    requires forall i, j :: 0 <= i <= j < |b| ==> Newer(b[i], b[j])
    ensures a == b
  {
    hide Newer;
    assert |a| == |multiset(a)| == |multiset(b)| == |b|;
    if a != [] {
      SameHead(a, b);
      TailMultiset(a);
      TailMultiset(b);
      SortedIsUnique(a[1..], b[1..]);
    }
  }

  lemma ListingIsUnique(posts: seq<PostRow>, a: seq<PostRow>, b: seq<PostRow>)
    requires IsListing(posts, a) && IsListing(posts, b) && DistinctTimes(posts)
    ensures a == b
  {
    forall p | p in a ensures p in posts {
      assert p in multiset(a);
      assert multiset(a)[p] == Listings(posts, p);
    }
    forall p ensures multiset(a)[p] == multiset(b)[p] {
    }
    assert multiset(a) == multiset(b);
    SortedIsUnique(a, b);
  }

  function Concat(pages: seq<seq<PostRow>>): seq<PostRow> {
    if pages == [] then [] else Concat(pages[..|pages| - 1]) + pages[|pages| - 1]
  }

  /** Paging through an unchanged table at offsets 0, L, 2L, … yields every published post
      exactly once, newest first, even though each request orders the rows anew. */
  lemma {:induction false} PagesConcatenate(posts: seq<PostRow>, listings: seq<seq<PostRow>>,
                                            pages: seq<seq<PostRow>>, limit: nat, whole: seq<PostRow>)
    requires DistinctTimes(posts) && IsListing(posts, whole)
    requires |pages| == |listings|
    requires forall k :: 0 <= k < |listings| ==> IsListing(posts, listings[k])
    requires forall k :: 0 <= k < |pages| ==> pages[k] == Page(listings[k], limit, k * limit)
    ensures Concat(pages) == if |pages| * limit <= |whole| then whole[..|pages| * limit] else whole
  {
    hide IsListing, DistinctTimes, Page;
    if pages == [] {
      assert |pages| * limit == 0;
    } else {
      var n := |pages| - 1;
      PagesConcatenate(posts, listings[..n], pages[..n], limit, whole);
      ListingIsUnique(posts, whole, listings[n]);
      var offset, next := n * limit, |pages| * limit;
      NextOffset(n, limit);
      assert pages[n] == Page(whole, limit, offset);
      PageExtends(whole, limit, offset);
    }
  }

  lemma NextOffset(n: nat, limit: nat)
    ensures (n + 1) * limit == n * limit + limit && n * limit >= 0
  {
  }

  lemma PageExtends(whole: seq<PostRow>, limit: nat, offset: nat)
    ensures (if offset <= |whole| then whole[..offset] else whole) + Page(whole, limit, offset)
            == if offset + limit <= |whole| then whole[..offset + limit] else whole
  {
  }

  // ---- The pages together ----

  /** One list that the query may return. */
  function Insert(p: PostRow, listing: seq<PostRow>): seq<PostRow> {
    if listing == [] || Newer(p, listing[0]) then [p] + listing
    else [listing[0]] + Insert(p, listing[1..])
  }

  function Listed(posts: seq<PostRow>): seq<PostRow> {
    if posts == [] then []
    else if posts[0].publishedAt.Some? then Insert(posts[0], Listed(posts[1..]))
    else Listed(posts[1..])
  }

  ghost predicate Sorted(listing: seq<PostRow>) {
    forall i, j :: 0 <= i <= j < |listing| ==> Newer(listing[i], listing[j])
  }

  lemma {:induction false} InsertAdds(p: PostRow, listing: seq<PostRow>)
    ensures multiset(Insert(p, listing)) == multiset(listing) + multiset{p}
  {
    hide Newer;
    if listing != [] && !Newer(p, listing[0]) {
      assert listing == [listing[0]] + listing[1..];
      InsertAdds(p, listing[1..]);
    }
  }

  lemma PrependSorted(p: PostRow, listing: seq<PostRow>)
    requires Newer(p, p) && Sorted(listing) && forall q :: q in listing ==> Newer(p, q)
    ensures Sorted([p] + listing)
  {
    hide Newer;
  }

  lemma {:induction false} InsertSorts(p: PostRow, listing: seq<PostRow>)
    requires p.publishedAt.Some? && Sorted(listing)
    ensures Sorted(Insert(p, listing))
  {
    if listing == [] || Newer(p, listing[0]) {
      assert forall j :: 0 <= j < |listing| ==> Newer(listing[0], listing[j]);
      PrependSorted(p, listing);
    } else {
      var head, rest := listing[0], listing[1..];
      assert Newer(head, head) && Newer(head, p);
      InsertSorts(p, rest);
      InsertAdds(p, rest);
      forall q | q in Insert(p, rest) ensures Newer(head, q) {
        assert q in multiset(rest) + multiset{p};
        if q in rest {
          var k :| 0 <= k < |rest| && rest[k] == q;
          assert listing[k + 1] == q;
        }
      }
      PrependSorted(head, Insert(p, rest));
    }
  }

  lemma {:induction false} ListedIsListing(posts: seq<PostRow>)
    ensures IsListing(posts, Listed(posts))
  {
    if posts != [] {
      ListedIsListing(posts[1..]);
      assert posts == [posts[0]] + posts[1..];
      if posts[0].publishedAt.Some? {
        InsertAdds(posts[0], Listed(posts[1..]));
        assert Sorted(Listed(posts[1..]));
        InsertSorts(posts[0], Listed(posts[1..]));
        assert Sorted(Listed(posts));
      }
    }
  }

  lemma {:induction false} EachOnce(posts: seq<PostRow>)
    requires DistinctIds(posts)
    ensures forall p :: multiset(posts)[p] <= 1
  {
    if posts != [] {
      EachOnce(posts[1..]);
      assert posts == [posts[0]] + posts[1..];
      assert posts[0] !in posts[1..];
    }
  }

  lemma NoneTwice(s: seq<PostRow>, i: nat, j: nat)
    requires i < j < |s| && forall p :: multiset(s)[p] <= 1
    ensures s[i] != s[j]
  {
    TwiceCounts(s, i, j);
  }

  lemma TwiceCounts(s: seq<PostRow>, i: nat, j: nat)
    requires i < j < |s|
    ensures s[i] == s[j] ==> multiset(s)[s[i]] >= 2
  {
    assert s == s[..j] + s[j..];
    assert s[..j][i] in multiset(s[..j]) && s[j..][0] in multiset(s[j..]);
  }

  lemma SameLength(posts: seq<PostRow>, listing: seq<PostRow>)
    requires IsListing(posts, listing)
    ensures |listing| == |Published(posts)| && forall p :: p in listing <==> p in posts && p.publishedAt.Some?
  {
    PublishedOnce(posts);
    forall p ensures multiset(listing)[p] == multiset(Published(posts))[p] {
      assert multiset(listing)[p] == Listings(posts, p);
    }
    assert multiset(listing) == multiset(Published(posts));
    assert |listing| == |multiset(listing)| == |Published(posts)|;
    forall p ensures p in listing <==> p in Published(posts) {
      assert p in listing <==> p in multiset(listing);
    }
  }

  /** Pages that reach the end hold, together, exactly the published posts of the table, none
      twice, each published before the one in front of it. */
  lemma PagesAreComplete(posts: seq<PostRow>, listings: seq<seq<PostRow>>, pages: seq<seq<PostRow>>, limit: nat)
    requires DistinctIds(posts) && DistinctTimes(posts) && |pages| == |listings|
    requires forall k :: 0 <= k < |listings| ==> IsListing(posts, listings[k])
    requires forall k :: 0 <= k < |pages| ==> pages[k] == Page(listings[k], limit, k * limit)
    requires |Published(posts)| <= |pages| * limit
    ensures var all := Concat(pages);
            && (forall p :: p in all <==> p in posts && p.publishedAt.Some?)
            && (forall i, j :: 0 <= i < j < |all| ==>
                  && all[i] != all[j] && all[i].publishedAt.Some? && all[j].publishedAt.Some?
                  && all[i].publishedAt.value > all[j].publishedAt.value)
  {
    var whole, all := Listed(posts), Concat(pages);
    ListedIsListing(posts);
    PagesConcatenate(posts, listings, pages, limit, whole);
    SameLength(posts, whole);
    assert whole[..|whole|] == whole;
    assert all == whole;
    EachOnce(posts);
    StrictlyNewer(posts, whole);
  }

  lemma StrictlyNewer(posts: seq<PostRow>, whole: seq<PostRow>)
    requires IsListing(posts, whole) && DistinctTimes(posts)
    requires forall p :: multiset(posts)[p] <= 1
    requires forall p :: p in whole ==> p in posts
    ensures forall i, j :: 0 <= i < j < |whole| ==>
              && whole[i] != whole[j] && whole[i].publishedAt.Some? && whole[j].publishedAt.Some?
              && whole[i].publishedAt.value > whole[j].publishedAt.value
  {
    forall p ensures multiset(whole)[p] <= 1 {
      assert multiset(whole)[p] == Listings(posts, p);
    }
    forall i, j | 0 <= i < j < |whole|
      ensures whole[i] != whole[j] && Newer(whole[i], whole[j]) && !Newer(whole[j], whole[i])
    {
      NoneTwice(whole, i, j);
      assert whole[i] in posts && whole[j] in posts;
    }
  }
}
