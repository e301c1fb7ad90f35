/** The `Forum` page: the search/category filter and the sort over posts,
    creating a post from the new-post form, and voting. Timestamps are
    milliseconds; ids and the clock are parameters. */
module Forum {

  import opened Common
  import Seqs
  import Sorting
  import Text
  import Auth

  datatype Post = Post(
    id: string,
    title: string,
    content: string,
    authorId: string,
    authorName: string,
    authorAvatar: string,
    category: string,
    tags: seq<string>,
    upvotes: int,
    downvotes: int,
    replies: int,
    views: int,
    createdAt: int,
    isPinned: bool,
    lastActivity: int)

  const AllCategories: string := "All"
  const Categories: seq<string> := ["All", "Programming", "Languages", "Data Science", "Design", "Marketing", "Music", "General"]

  /** The search box: title or content contains the term, ignoring case. */
  predicate MatchesSearch(p: Post, term: string)
  {
    Text.Contains(Text.Lower(p.title), Text.Lower(term)) || Text.Contains(Text.Lower(p.content), Text.Lower(term))
  }

  /** The category selector: `All` or the post's own category. */
  predicate MatchesCategory(p: Post, category: string)
  {
    category == AllCategories || p.category == category
  }

  predicate Shown(p: Post, term: string, category: string)
  {
    MatchesSearch(p, term) && MatchesCategory(p, category)
  }

  /** The sort key of each `sortBy` choice; anything unrecognised sorts by
      latest activity, like `recent`. */
  function SortKey(sortBy: string): Post -> int
  {
    if sortBy == "popular" then (p: Post) => p.upvotes - p.downvotes
    else if sortBy == "replies" then (p: Post) => p.replies
    else if sortBy == "views" then (p: Post) => p.views
    else (p: Post) => p.lastActivity
  }

  /** `filteredPosts`: exactly the shown posts, each as often as in `posts`,
      ordered by non-increasing key, with posts of equal key in the order
      they have in `posts`. */
  function FilteredPosts(posts: seq<Post>, term: string, category: string, sortBy: string): (r: seq<Post>)
    ensures forall p :: multiset(r)[p] == if Shown(p, term, category) then multiset(posts)[p] else 0
    ensures forall i, j :: 0 <= i < j < |r| ==> SortKey(sortBy)(r[i]) >= SortKey(sortBy)(r[j])
    ensures forall k :: Seqs.IsSubseq(Sorting.KeyClass(r, SortKey(sortBy), k), posts)
  {
    Sorting.FilterSortDesc(posts, (p: Post) => Shown(p, term, category), SortKey(sortBy));
    Sorting.SortDesc(Seqs.Filter(posts, (p: Post) => Shown(p, term, category)), SortKey(sortBy))
  }

  /** With an empty search and category `All` every post is listed. */
  lemma EmptySearchShowsAll(posts: seq<Post>, sortBy: string)
    ensures multiset(FilteredPosts(posts, "", AllCategories, sortBy)) == multiset(posts)
  {
    var r := FilteredPosts(posts, "", AllCategories, sortBy);
    forall p ensures Shown(p, "", AllCategories) {
      Text.ContainsEmpty(Text.Lower(p.title));
    }
    assert forall p :: multiset(r)[p] == multiset(posts)[p];
  }

  // ------------------------------------------------------------ new posts

  datatype NewPostForm = NewPostForm(title: string, content: string, category: string, tags: string)

  const EmptyForm: NewPostForm := NewPostForm("", "", "", "")

  /** Trims every piece. */
  function TrimAll(pieces: seq<string>): (r: seq<string>)
    ensures |r| == |pieces|
    ensures forall i :: 0 <= i < |r| ==> r[i] == Text.Trim(pieces[i])
  {
    seq(|pieces|, i requires 0 <= i < |pieces| => Text.Trim(pieces[i]))
  }

  /** `tags.split(',').map(tag => tag.trim()).filter(Boolean)`: the trimmed,
      non-empty comma-separated pieces, in order. */
  function ParseTags(input: string): (r: seq<string>)
    ensures forall t :: multiset(r)[t] == if t != "" then multiset(TrimAll(Text.Split(input, ',')))[t] else 0
    ensures forall t :: t in r <==> t in TrimAll(Text.Split(input, ',')) && t != ""
    ensures Seqs.IsSubseq(r, TrimAll(Text.Split(input, ',')))
    ensures forall t :: t in r ==> t != "" && ',' !in t && !Text.IsSpace(t[0]) && !Text.IsSpace(t[|t| - 1])
  {
    var pieces := TrimAll(Text.Split(input, ','));
    PiecesClean(input);
    Seqs.FilterSpec(pieces, (t: string) => t != "");
    Seqs.Filter(pieces, (t: string) => t != "")
  }

  /** Every trimmed piece is comma-free and has no surrounding white space. */
  lemma PiecesClean(input: string)
    ensures forall t :: t in TrimAll(Text.Split(input, ',')) ==>
              ',' !in t && (t != "" ==> !Text.IsSpace(t[0]) && !Text.IsSpace(t[|t| - 1]))
  {
    var parts := Text.Split(input, ',');
    var pieces := TrimAll(parts);
    forall i | 0 <= i < |pieces| ensures ',' !in pieces[i] {
      assert pieces[i] == parts[i][Text.LeadingSpaces(parts[i])..Text.LeadingSpaces(parts[i]) + |pieces[i]|];
      assert ',' !in parts[i];
    }
  }

  /** Tags written out with commas parse back to themselves, as long as each
      is non-empty, has no comma and no surrounding white space. */
  lemma ParseTagsRoundTrip(tags: seq<string>)
    requires forall i :: 0 <= i < |tags| ==> tags[i] != "" && ',' !in tags[i]
    requires forall i :: 0 <= i < |tags| ==> !Text.IsSpace(tags[i][0]) && !Text.IsSpace(tags[i][|tags[i]| - 1])
    ensures ParseTags(Text.Join(tags, ',')) == tags
  {
    if |tags| == 0 {
      assert Text.Split("", ',') == [""];
      assert TrimAll([""]) == [""];
    } else {
      Text.SplitJoin(tags, ',');
      forall i | 0 <= i < |tags| ensures Text.Trim(tags[i]) == tags[i] {
        Text.TrimIdentity(tags[i]);
      }
      assert TrimAll(tags) == tags;
      Seqs.FilterAll(tags, (t: string) => t != "");
    }
  }

  /** The author's avatar: the photo link, or the empty string. */
  function AvatarOf(u: Auth.User): string
  {
    match u.photoUrl
    case Some(url) => url
    case None => ""
  }

  /** `handleCreatePost`: without a signed-in user or with an empty title,
      content or category nothing happens; otherwise a fresh post by the
      user, with no votes, replies or views and not pinned, is put first and
      the form is cleared. */
  function CreatePost(posts: seq<Post>, user: Option<Auth.User>, form: NewPostForm, id: string, now: int): (r: (seq<Post>, NewPostForm))
    ensures user.None? || form.title == "" || form.content == "" || form.category == "" ==> r == (posts, form)
    ensures user.Some? && form.title != "" && form.content != "" && form.category != "" ==>
              && |r.0| == |posts| + 1 && r.0[1..] == posts && r.1 == EmptyForm
              && var p := r.0[0];
                 && p.id == id && p.title == form.title && p.content == form.content && p.category == form.category
                 && p.authorId == user.value.id && p.authorName == user.value.name && p.authorAvatar == AvatarOf(user.value)
                 && p.tags == ParseTags(form.tags)
                 && p.upvotes == 0 && p.downvotes == 0 && p.replies == 0 && p.views == 0
                 && !p.isPinned && p.createdAt == now && p.lastActivity == now
  {
    if user.None? || form.title == "" || form.content == "" || form.category == "" then (posts, form)
    else
      var u := user.value;
      var p := Post(id, form.title, form.content, u.id, u.name, AvatarOf(u), form.category,
                    ParseTags(form.tags), 0, 0, 0, 0, now, false, now);
      ([p] + posts, EmptyForm)
  }

  // --------------------------------------------------------------- voting

  datatype Vote = Up | Down

  /** `handleVote`: each post with the id gets one more up- or down-vote;
      its other counter and every other post are untouched. */
  function CastVote(posts: seq<Post>, postId: string, vote: Vote): (r: seq<Post>)
    ensures |r| == |posts|
    ensures forall i :: 0 <= i < |posts| && posts[i].id != postId ==> r[i] == posts[i]
    ensures forall i :: 0 <= i < |posts| && posts[i].id == postId ==>
              && r[i].upvotes == posts[i].upvotes + (if vote == Up then 1 else 0)
              && r[i].downvotes == posts[i].downvotes + (if vote == Down then 1 else 0)
              && r[i] == posts[i].(upvotes := r[i].upvotes, downvotes := r[i].downvotes)
  {
    seq(|posts|, i requires 0 <= i < |posts| =>
      if posts[i].id == postId
      then posts[i].(upvotes := if vote == Up then posts[i].upvotes + 1 else posts[i].upvotes,
                     downvotes := if vote == Down then posts[i].downvotes + 1 else posts[i].downvotes)
      else posts[i])
  }

  /** Votes commute, an up-vote raises the `popular` score of the voted post
      by one and a down-vote lowers it by one. */
  lemma VotesCommuteAndMoveScore(posts: seq<Post>, a: string, b: string, va: Vote, vb: Vote)
    ensures CastVote(CastVote(posts, a, va), b, vb) == CastVote(CastVote(posts, b, vb), a, va)
    ensures forall i :: 0 <= i < |posts| && posts[i].id == a ==>
              SortKey("popular")(CastVote(posts, a, va)[i]) == SortKey("popular")(posts[i]) + (if va == Up then 1 else -1)
  {
    var x := CastVote(CastVote(posts, a, va), b, vb);
    var y := CastVote(CastVote(posts, b, vb), a, va);
    assert forall i :: 0 <= i < |posts| ==> x[i] == y[i];
  }
}
