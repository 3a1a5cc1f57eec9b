/**
  The account data that unified and all-pass services read (`SnapshotAccountData`): from the payloads of
  their own reports, and for older reports from the corpus that was built for them.
*/
module SnapshotAccounts {
  import opened Wrappers
  import opened Arguments
  import opened Sorting
  import C = AccountCorpus
  import A = CorpusActivities
  import N = AccountNavigation
  import W = CorpusViews

  /** A comment of a frozen report, with the source key of its author. */
  datatype Comment = Comment(id: string, sourceKey: string, identityConsistent: bool, auditStatus: string)

  /** A post payload with the source key of its raw author. */
  datatype Post = Post(postId: string, platform: string, sourceKey: string, comments: seq<Comment>)

  /** An authorized report: its own snapshot, or one whose accounts come from the older corpus. */
  datatype Repo = Own(task: string, posts: seq<Post>) | Older(task: string)

  /** An occurrence under its printed reference. */
  datatype Item = Item(ref: string, stored: N.Stored)

  /** The printed account references, the digest of an activity, and whether only completed comments count. */
  datatype Setting = Setting(nameOf: A.Names, digest: string -> string, completedOnly: bool)

  // ---- collecting ----

  /** `identify`: only accounts of the platform with a source key have a stable identity. */
  function Identify(s: Setting, platform: string, key: string): string {
    if Strip(key) == "" || C.PlatformOf(platform) != C.DOUYIN then ""
    else s.nameOf(C.AccountRef(C.DOUYIN, C.NAMESPACE, Strip(key)))
  }

  /** `post_id.split(":", 1)[-1]`. */
  function ContentKey(postId: string): string {
    if ':' !in postId then postId else AfterFirstColon(postId)
  }

  function AfterFirstColon(s: string): string {
    if s == "" then "" else if s[0] == ':' then s[1..] else AfterFirstColon(s[1..])
  }

  /** The key of a post id is what stands behind its first colon, or the whole id. */
  lemma {:induction false} ContentKeyIs(front: string, key: string)
    requires ':' !in front
    ensures ContentKey(front + ":" + key) == key && ContentKey(front) == front
    decreases |front|
  {
    var s := front + ":" + key;
    assert s[|front|] == ':';
    if front != "" {
      ContentKeyIs(front[1..], key);
      assert s[1..] == front[1..] + ":" + key && s[0] == front[0] && front[0] in front;
      assert (front[1..] + ":" + key)[|front| - 1] == ':';
    } else {
      assert s[1..] == key;
    }
  }

  function PostItem(s: Setting, task: string, p: Post): Item {
    var author := Identify(s, p.platform, p.sourceKey);
    Item("snapshot-activity:" + s.digest(task + ":" + p.postId + ":post_author:" + p.postId),
         N.Stored(author, false, task, ContentKey(p.postId), author))
  }

  function CommentItem(s: Setting, task: string, p: Post, c: Comment): Item {
    Item("snapshot-activity:" + s.digest(task + ":" + p.postId + ":comment_author:" + c.id),
         N.Stored(if c.identityConsistent then Identify(s, p.platform, c.sourceKey) else "", true, task, ContentKey(p.postId),
                  Identify(s, p.platform, p.sourceKey)))
  }

  predicate Counts(s: Setting, c: Comment) {
    s.completedOnly ==> c.auditStatus == "completed"
  }

  /** The one platform and a source key that is not blank: what a stable identity takes. */
  ghost predicate IdentityTells(s: Setting, identity: string, platform: string, key: string) {
    if (platform == "dy" || platform == "douyin") && Strip(key) != ""
    then identity == s.nameOf(C.AccountRef("douyin", "douyin.sec_uid", Strip(key))) else identity == ""
  }

  /** What is stored of a post and of its comment: their authors, their task and their post. */
  lemma ItemsTell(s: Setting, task: string, p: Post, c: Comment)
    ensures
      var x := PostItem(s, task, p).stored;
      && !x.isComment && x.task == task && x.contentKey == ContentKey(p.postId)
      && IdentityTells(s, x.account, p.platform, p.sourceKey) && x.parentAuthor == x.account
    ensures
      var x := CommentItem(s, task, p, c).stored;
      && x.isComment && x.task == task && x.contentKey == ContentKey(p.postId)
      && (if c.identityConsistent then IdentityTells(s, x.account, p.platform, c.sourceKey) else x.account == "")
      && IdentityTells(s, x.parentAuthor, p.platform, p.sourceKey)
    ensures Counts(s, c) <==> !s.completedOnly || c.auditStatus == "completed"
  {
    hide Strip, ContentKey;
  }

  function CommentItems(s: Setting, task: string, p: Post, comments: seq<Comment>): seq<Item> {
    if comments == [] then []
    else
      var last := comments[|comments| - 1];
      CommentItems(s, task, p, comments[..|comments| - 1]) + (if Counts(s, last) then [CommentItem(s, task, p, last)] else [])
  }

  function PostItems(s: Setting, task: string, posts: seq<Post>): seq<Item> {
    if posts == [] then []
    else
      var last := posts[|posts| - 1];
      PostItems(s, task, posts[..|posts| - 1]) + [PostItem(s, task, last)] + CommentItems(s, task, last, last.comments)
  }

  function OfTask(items: seq<Item>, task: string): seq<Item> {
    if items == [] then []
    else
      var last := items[|items| - 1];
      OfTask(items[..|items| - 1], task) + (if last.stored.task == task then [last] else [])
  }

  function RepoItems(s: Setting, older: seq<Item>, r: Repo): seq<Item> {
    match r
    case Own(task, posts) => PostItems(s, task, posts)
    case Older(task) => OfTask(older, task)
  }

  function Items(s: Setting, older: seq<Item>, repos: seq<Repo>): seq<Item> {
    if repos == [] then [] else Items(s, older, repos[..|repos| - 1]) + RepoItems(s, older, repos[|repos| - 1])
  }

  method CollectPosts(s: Setting, task: string, posts: seq<Post>) returns (items: seq<Item>)
    ensures items == PostItems(s, task, posts)
  {
    hide PostItem, CommentItem;
    items := [];
    for i := 0 to |posts|
      invariant items == PostItems(s, task, posts[..i])
    {
      assert posts[..i + 1][..i] == posts[..i];
      var p := posts[i];
      items := items + [PostItem(s, task, p)];
      for j := 0 to |p.comments|
        invariant items == PostItems(s, task, posts[..i]) + [PostItem(s, task, p)] + CommentItems(s, task, p, p.comments[..j])
      {
        assert p.comments[..j + 1][..j] == p.comments[..j];
        if Counts(s, p.comments[j]) {
          items := items + [CommentItem(s, task, p, p.comments[j])];
        }
      }
      assert p.comments[..|p.comments|] == p.comments;
    }
    assert posts[..|posts|] == posts;
  }

  const RepoTask: Repo -> string := (r: Repo) => r.task

  /** The constructor: reports of one task are refused. */
  method Collect(s: Setting, older: seq<Item>, repos: seq<Repo>) returns (items: Result<seq<Item>>)
    ensures items.Ok? <==> UniqueBy(repos, RepoTask)
    ensures items.Ok? ==> items.value == Items(s, older, repos)
  {
    hide UniqueBy, PostItems, OfTask;
    var distinct := AllDistinct(repos, RepoTask);
    if !distinct {
      return Err("duplicate_authorized_task");
    }
    var all := [];
    for i := 0 to |repos|
      invariant all == Items(s, older, repos[..i])
    {
      assert repos[..i + 1][..i] == repos[..i];
      match repos[i] {
        case Own(task, posts) =>
          var own := CollectPosts(s, task, posts);
          all := all + own;
        case Older(task) => all := all + OfTask(older, task);
      }
    }
    assert repos[..|repos|] == repos;
    return Ok(all);
  }

  // ---- what the repository makes of it ----

  function Posts(items: seq<Item>): seq<N.Stored> {
    if items == [] then [] else (if items[0].stored.isComment then [] else [items[0].stored]) + Posts(items[1..])
  }

  const PostKey: N.Stored -> (string, string) := (x: N.Stored) => (x.task, x.contentKey)

  /** The constructor of the repository refuses repeated posts; that it also refuses repeated comments is not needed. */
  ghost predicate Opens(items: seq<Item>) {
    UniqueBy(Posts(items), PostKey)
  }

  /** The last item under a reference: what `{ref: item}` keeps. */
  function LastOf(items: seq<Item>, ref: string): (x: Item)
    requires exists i <- items :: i.ref == ref
    ensures x in items && x.ref == ref
  {
    if items[|items| - 1].ref == ref then items[|items| - 1] else LastOf(items[..|items| - 1], ref)
  }

  function PostWith(posts: seq<N.Stored>, key: (string, string)): (x: N.Stored)
    requires exists p <- posts :: PostKey(p) == key
    ensures x in posts && PostKey(x) == key
  {
    if PostKey(posts[0]) == key then posts[0] else PostWith(posts[1..], key)
  }

  function ViewOf(items: seq<Item>, repos: seq<Repo>, catalog: set<string>): N.View {
    N.View(set i <- items | i.stored.account != "" :: i.stored.account,
           map r | r in (set i <- items :: i.ref) :: LastOf(items, r).stored,
           map k | k in (set p <- Posts(items) :: PostKey(p)) :: PostWith(Posts(items), k).account,
           set r <- repos :: r.task,
           catalog)
  }

  // ---- every comment comes with its post ----

  /** The comment's post is among the items, with the author that the comment names. */
  ghost predicate HasPost(items: seq<Item>, x: N.Stored) {
    exists p <- items :: !p.stored.isComment && PostKey(p.stored) == PostKey(x) && p.stored.account == x.parentAuthor
  }

  ghost predicate Coherent(items: seq<Item>) {
    forall i <- items :: i.stored.isComment ==> HasPost(items, i.stored)
  }

  lemma CoherentConcat(a: seq<Item>, b: seq<Item>)
    requires Coherent(a) && Coherent(b)
    ensures Coherent(a + b)
  {
    forall i | i in a + b && i.stored.isComment ensures HasPost(a + b, i.stored) {
      assert i in a || i in b;
      var p :| p in (if i in a then a else b) && !p.stored.isComment && PostKey(p.stored) == PostKey(i.stored) && p.stored.account == i.stored.parentAuthor;
      assert p in a + b;
    }
  }

  lemma {:induction false} CommentItemsAre(s: Setting, task: string, p: Post, comments: seq<Comment>)
    ensures forall i <- CommentItems(s, task, p, comments) ::
      i.stored.isComment && i.stored.task == task && i.stored.contentKey == ContentKey(p.postId)
      && i.stored.parentAuthor == Identify(s, p.platform, p.sourceKey)
  {
    if comments != [] {
      hide Identify, ContentKey;
      CommentItemsAre(s, task, p, comments[..|comments| - 1]);
    }
  }

  lemma OnePostIsCoherent(s: Setting, task: string, p: Post)
    ensures
      var items := [PostItem(s, task, p)] + CommentItems(s, task, p, p.comments);
      Coherent(items) && forall i <- items :: i.stored.task == task
  {
    hide Identify, ContentKey, CommentItems;
    CommentItemsAre(s, task, p, p.comments);
    var items := [PostItem(s, task, p)] + CommentItems(s, task, p, p.comments);
    assert PostItem(s, task, p) in items;
    forall i | i in items && i.stored.isComment ensures HasPost(items, i.stored) {
      assert i in CommentItems(s, task, p, p.comments);
    }
  }

  lemma {:induction false} PostItemsAreCoherent(s: Setting, task: string, posts: seq<Post>)
    ensures Coherent(PostItems(s, task, posts)) && forall i <- PostItems(s, task, posts) :: i.stored.task == task
  {
    if posts != [] {
      hide Coherent, PostItem, CommentItems;
      var last, before := posts[|posts| - 1], PostItems(s, task, posts[..|posts| - 1]);
      var here := [PostItem(s, task, last)] + CommentItems(s, task, last, last.comments);
      PostItemsAreCoherent(s, task, posts[..|posts| - 1]);
      OnePostIsCoherent(s, task, last);
      CoherentConcat(before, here);
      assert PostItems(s, task, posts) == before + here;
    }
  }

  lemma {:induction false} OfTaskAre(items: seq<Item>, task: string)
    ensures forall i :: i in OfTask(items, task) <==> i in items && i.stored.task == task
  {
    if items != [] {
      OfTaskAre(items[..|items| - 1], task);
      assert items == items[..|items| - 1] + [items[|items| - 1]];
    }
  }

  lemma OfTaskIsCoherent(items: seq<Item>, task: string)
    requires Coherent(items)
    ensures Coherent(OfTask(items, task))
  {
    hide OfTask;
    OfTaskAre(items, task);
    forall i | i in OfTask(items, task) && i.stored.isComment ensures HasPost(OfTask(items, task), i.stored) {
      var p :| p in items && !p.stored.isComment && PostKey(p.stored) == PostKey(i.stored) && p.stored.account == i.stored.parentAuthor;
      assert p in OfTask(items, task);
    }
  }

  lemma {:induction false} ItemsAreCoherent(s: Setting, older: seq<Item>, repos: seq<Repo>)
    requires Coherent(older)
    ensures Coherent(Items(s, older, repos))
    ensures forall i <- Items(s, older, repos) :: exists r <- repos :: r.task == i.stored.task
  {
    if repos != [] {
      hide Coherent, PostItems, OfTask;
      var init, last := repos[..|repos| - 1], repos[|repos| - 1];
      assert repos == init + [last];
      ItemsAreCoherent(s, older, init);
      match last {
        case Own(task, posts) => PostItemsAreCoherent(s, task, posts);
        case Older(task) =>
          OfTaskIsCoherent(older, task);
          OfTaskAre(older, task);
      }
      CoherentConcat(Items(s, older, init), RepoItems(s, older, last));
    }
  }

  // ---- the result ----

  lemma {:induction false} PostsAre(items: seq<Item>)
    ensures forall x :: x in Posts(items) <==> exists i <- items :: i.stored == x && !x.isComment
  {
    if items != [] {
      PostsAre(items[1..]);
      assert items == [items[0]] + items[1..];
    }
  }

  lemma ItemIsStored(items: seq<Item>, repos: seq<Repo>, catalog: set<string>, i: Item)
    requires Opens(items) && Coherent(items) && i in items && exists r <- repos :: r.task == i.stored.task
    ensures N.StoredOk(ViewOf(items, repos, catalog), i.stored)
  {
    hide LastOf, Posts;
    PostsAre(items);
    var x := i.stored;
    if x.isComment {
      var p :| p in items && !p.stored.isComment && PostKey(p.stored) == PostKey(x) && p.stored.account == x.parentAuthor;
      assert p.stored in Posts(items);
      KeyedAlike(Posts(items), PostKey, p.stored, PostWith(Posts(items), PostKey(x)));
    }
  }

  /** Whatever the payloads are: if the repository opens, it has all that the account tools rely on. */
  lemma SnapshotIsWellFormed(s: Setting, older: seq<Item>, repos: seq<Repo>, catalog: set<string>)
    requires Coherent(older) && Opens(Items(s, older, repos))
    ensures N.WellFormed(ViewOf(Items(s, older, repos), repos, catalog))
  {
    hide Coherent, Opens, Items, N.StoredOk, Posts;
    ItemsAreCoherent(s, older, repos);
    var items, v := Items(s, older, repos), ViewOf(Items(s, older, repos), repos, catalog);
    forall r | r in v.occurrences ensures N.StoredOk(v, v.occurrences[r]) {
      ItemIsStored(items, repos, catalog, LastOf(items, r));
    }
  }

  /** The reader refuses a comment of an own report exactly if the raw author of its post has no identity on the platform. */
  lemma KnownIffIdentified(s: Setting, task: string, p: Post, c: Comment)
    requires forall a :: s.nameOf(a) != ""
    ensures N.AuthorKnown(CommentItem(s, task, p, c).stored) <==> Strip(p.sourceKey) != "" && C.PlatformOf(p.platform) == C.DOUYIN
  {
    hide Strip, ContentKey;
  }

  lemma {:induction false} CountedIsListed(s: Setting, task: string, p: Post, comments: seq<Comment>, c: Comment)
    requires c in comments && Counts(s, c)
    ensures CommentItem(s, task, p, c) in CommentItems(s, task, p, comments)
  {
    hide CommentItem;
    var init, last := comments[..|comments| - 1], comments[|comments| - 1];
    assert comments == init + [last];
    if c in init {
      CountedIsListed(s, task, p, init, c);
    }
  }

  lemma {:induction false} PostIsListed(s: Setting, task: string, posts: seq<Post>, p: Post)
    requires p in posts
    ensures PostItem(s, task, p) in PostItems(s, task, posts)
    ensures forall i <- CommentItems(s, task, p, p.comments) :: i in PostItems(s, task, posts)
  {
    hide PostItem, CommentItems;
    var init, last := posts[..|posts| - 1], posts[|posts| - 1];
    assert posts == init + [last];
    if p in init {
      PostIsListed(s, task, init, p);
    }
  }

  lemma {:induction false} RepoIsListed(s: Setting, older: seq<Item>, repos: seq<Repo>, r: Repo)
    requires r in repos
    ensures forall i <- RepoItems(s, older, r) :: i in Items(s, older, repos)
  {
    hide RepoItems;
    var init, last := repos[..|repos| - 1], repos[|repos| - 1];
    assert repos == init + [last];
    if r in init {
      RepoIsListed(s, older, init, r);
    }
  }

  /** Every post and every counted comment of an own report has its occurrence: looking one up is never refused. */
  lemma OwnIsFound(s: Setting, older: seq<Item>, repos: seq<Repo>, task: string, posts: seq<Post>, p: Post, c: Comment)
    requires Own(task, posts) in repos && p in posts && c in p.comments && Counts(s, c)
    ensures PostItem(s, task, p) in Items(s, older, repos) && CommentItem(s, task, p, c) in Items(s, older, repos)
  {
    hide Items, PostItems, PostItem, CommentItem, CommentItems;
    RepoIsListed(s, older, repos, Own(task, posts));
    PostIsListed(s, task, posts, p);
    CountedIsListed(s, task, p, p.comments, c);
  }

  // ---- the corpus of the older reports ----

  /** The occurrences of a built corpus, in their order. */
  function OlderItems(b: W.Build): seq<Item> {
    seq(|b.corpus.occurrences|, i requires 0 <= i < |b.corpus.occurrences| => OlderItem(b, b.corpus.occurrences[i]))
  }

  function OlderItem(b: W.Build, o: C.Occurrence): Item {
    Item(b.refOf(o.ref), W.StoredAs(o, b.nameOf))
  }

  lemma OlderIsListed(b: W.Build, o: C.Occurrence)
    requires o in b.corpus.occurrences
    ensures OlderItem(b, o) in OlderItems(b)
  {
    hide OlderItem;
    var i :| 0 <= i < |b.corpus.occurrences| && b.corpus.occurrences[i] == o;
    assert OlderItems(b)[i] == OlderItem(b, o);
  }

  lemma OlderHasPost(b: W.Build, o: C.Occurrence)
    requires W.IsBuild(b) && o in b.corpus.occurrences && o.kind.CommentAuthor?
    ensures HasPost(OlderItems(b), W.StoredAs(o, b.nameOf))
  {
    hide W.IsBuild, C.PostIndex, OlderItems;
    var p := W.PostOfComment(b, o);
    OlderIsListed(b, p);
    assert OlderItem(b, p).stored == W.StoredAs(p, b.nameOf);
  }

  /** A built corpus supplies the older reports with comments that come with their posts. */
  lemma OlderIsCoherent(b: W.Build)
    requires W.IsBuild(b)
    ensures Coherent(OlderItems(b))
  {
    hide W.IsBuild, HasPost;
    forall i | i in OlderItems(b) && i.stored.isComment ensures HasPost(OlderItems(b), i.stored) {
      var k :| 0 <= k < |b.corpus.occurrences| && OlderItems(b)[k] == i;
      assert b.corpus.occurrences[k] in b.corpus.occurrences;
      OlderHasPost(b, b.corpus.occurrences[k]);
    }
  }
}
