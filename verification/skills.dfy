/** The `Skills` catalogue page: the de-duplicated tag list, the
    search/category/tag filter with its four sort choices, tag toggling, and
    the filter resets. Ratings are kept in tenths. */
module SkillsCatalog {

  import Seqs
  import Sorting
  import Text

  datatype Skill = Skill(
    id: string,
    userId: string,
    userName: string,
    userPhoto: string,
    userLocation: string,
    skillName: string,
    category: string,
    description: string,
    tags: seq<string>,
    ratingTenths: int,
    reviews: int,
    proficiencyLevel: int,
    isOnline: bool,
    timezone: string)

  const AllCategories: string := "All"
  const Categories: seq<string> := ["All", "Programming", "Languages", "Marketing", "Design", "Data Science", "Music", "Business"]
  const SortChoices: seq<string> := ["recent", "popular", "rating", "alphabetical"]

  // ----------------------------------------------------------------- tags

  /** Every skill's tags, one skill after another. */
  function Flatten(skills: seq<Skill>): seq<string>
  {
    if |skills| == 0 then [] else Flatten(skills[..|skills| - 1]) + skills[|skills| - 1].tags
  }

  lemma {:induction false} FlattenMembers(skills: seq<Skill>)
    ensures forall t :: t in Flatten(skills) <==> exists s :: s in skills && t in s.tags
  {
    if |skills| > 0 {
      var init := skills[..|skills| - 1];
      FlattenMembers(init);
      assert skills == init + [skills[|skills| - 1]];
      forall t | t in Flatten(skills) ensures exists s :: s in skills && t in s.tags {
        if t in Flatten(init) {
          var s :| s in init && t in s.tags;
          assert s in skills;
        } else {
          assert skills[|skills| - 1] in skills;
        }
      }
    }
  }

  /** `allTags`: every tag of every skill exactly once, in order of first
      appearance (a `Set` iterates in insertion order). */
  method AllTags(skills: seq<Skill>) returns (tags: seq<string>)
    ensures Seqs.NoDup(tags)
    ensures forall t :: t in tags <==> exists s :: s in skills && t in s.tags
    ensures Seqs.IsSubseq(tags, Flatten(skills))
    ensures tags == Seqs.Dedup(Flatten(skills))
  {
    tags := [];
    var i := 0;
    while i < |skills|
      invariant 0 <= i <= |skills|
      invariant tags == Seqs.Dedup(Flatten(skills[..i]))
    {
      tags := AddTags(tags, Flatten(skills[..i]), skills[i].tags);
      assert skills[..i + 1][..i] == skills[..i];
      assert Flatten(skills[..i + 1]) == Flatten(skills[..i]) + skills[i].tags;
      i := i + 1;
    }
    assert skills[..i] == skills;
    FlattenMembers(skills);
    Seqs.DedupSpec(Flatten(skills));
  }

  /** One skill's `forEach`: adds each of its tags that is not yet present. */
  method AddTags(tags: seq<string>, ghost done: seq<string>, own: seq<string>) returns (r: seq<string>)
    requires tags == Seqs.Dedup(done)
    ensures r == Seqs.Dedup(done + own)
  {
    r := tags;
    var j := 0;
    assert done + own[..0] == done;
    while j < |own|
      invariant 0 <= j <= |own|
      invariant r == Seqs.Dedup(done + own[..j])
    {
      var t := own[j];
      assert done + own[..j + 1] == (done + own[..j]) + [t];
      Seqs.DedupSnoc(done + own[..j], t);
      if t !in r {
        r := r + [t];
      }
      j := j + 1;
    }
    assert own[..j] == own;
  }

  // ------------------------------------------------------------- filtering

  /** The search box: skill name, description or teacher name contains the
      term, ignoring case. */
  predicate MatchesSearch(s: Skill, term: string)
  {
    var t := Text.Lower(term);
    Text.Contains(Text.Lower(s.skillName), t) || Text.Contains(Text.Lower(s.description), t)
    || Text.Contains(Text.Lower(s.userName), t)
  }

  /** The tag chips: none selected, or the skill has one of the selected. */
  predicate MatchesTags(s: Skill, selected: seq<string>)
  {
    |selected| == 0 || exists t :: t in selected && t in s.tags
  }

  predicate Passes(s: Skill, term: string, category: string, selected: seq<string>)
  {
    MatchesSearch(s, term) && (category == AllCategories || s.category == category) && MatchesTags(s, selected)
  }

  function Rating(s: Skill): int { s.ratingTenths }
  function Reviews(s: Skill): int { s.reviews }
  function Name(s: Skill): string { s.skillName }

  /** `filteredSkills`: exactly the passing skills, each as often as in the
      catalogue. `rating` and `popular` order by non-increasing rating or
      review count (ties in catalogue order), `alphabetical` by name, and
      `recent` or anything else keeps the catalogue order. */
  function FilteredSkills(skills: seq<Skill>, term: string, category: string, sortBy: string, selected: seq<string>): (r: seq<Skill>)
    ensures forall s :: multiset(r)[s] == if Passes(s, term, category, selected) then multiset(skills)[s] else 0
    ensures sortBy == "rating" ==> forall i, j :: 0 <= i < j < |r| ==> r[i].ratingTenths >= r[j].ratingTenths
    ensures sortBy == "rating" ==> forall k :: Seqs.IsSubseq(Sorting.KeyClass(r, Rating, k), skills)
    ensures sortBy == "popular" ==> forall i, j :: 0 <= i < j < |r| ==> r[i].reviews >= r[j].reviews
    ensures sortBy == "popular" ==> forall k :: Seqs.IsSubseq(Sorting.KeyClass(r, Reviews, k), skills)
    ensures sortBy == "alphabetical" ==> forall i, j :: 0 <= i < j < |r| ==> Text.LexLe(r[i].skillName, r[j].skillName)
    ensures sortBy == "alphabetical" ==> forall n :: Seqs.IsSubseq(Sorting.NameClass(r, Name, n), skills)
    ensures sortBy !in {"rating", "popular", "alphabetical"} ==> Seqs.IsSubseq(r, skills)
  {
    var pass := (s: Skill) => Passes(s, term, category, selected);
    var kept := Seqs.Filter(skills, pass);
    Seqs.FilterSpec(skills, pass);
    if sortBy == "rating" then
      Sorting.FilterSortDesc(skills, pass, Rating);
      Sorting.SortDesc(kept, Rating)
    else if sortBy == "popular" then
      Sorting.FilterSortDesc(skills, pass, Reviews);
      Sorting.SortDesc(kept, Reviews)
    else if sortBy == "alphabetical" then
      Sorting.FilterSortByName(skills, pass, Name);
      Sorting.SortByName(kept, Name)
    else
      kept
  }

  // ------------------------------------------------------------ selection

  /** `toggleTag`: a selected tag is removed, any other tag is appended. */
  function ToggleTag(selected: seq<string>, tag: string): (r: seq<string>)
    ensures tag in r <==> tag !in selected
    ensures forall t :: t != tag ==> (t in r <==> t in selected)
    ensures tag !in selected ==> r == selected + [tag]
    ensures tag in selected ==> forall t :: multiset(r)[t] == if t != tag then multiset(selected)[t] else 0
    ensures tag in selected ==> Seqs.IsSubseq(r, selected)
    ensures Seqs.NoDup(selected) ==> Seqs.NoDup(r)
  {
    if tag in selected then
      Seqs.FilterSpec(selected, (t: string) => t != tag);
      if Seqs.NoDup(selected) then
        Seqs.FilterNoDup(selected, (t: string) => t != tag);
        Seqs.Filter(selected, (t: string) => t != tag)
      else
        Seqs.Filter(selected, (t: string) => t != tag)
    else
      selected + [tag]
  }

  /** Toggling a tag twice restores which tags are selected, and restores the
      list itself when the tag was not selected to begin with. */
  lemma ToggleTwice(selected: seq<string>, tag: string)
    ensures forall t :: t in ToggleTag(ToggleTag(selected, tag), tag) <==> t in selected
    ensures tag !in selected ==> ToggleTag(ToggleTag(selected, tag), tag) == selected
  {
    if tag !in selected {
      var once := selected + [tag];
      Seqs.FilterSpec(selected, (t: string) => t != tag);
      Seqs.FilterAll(selected, (t: string) => t != tag);
      assert Seqs.Filter(once, (t: string) => t != tag) == Seqs.Filter(selected, (t: string) => t != tag) by {
        FilterDropLast(selected, tag);
      }
    }
  }

  lemma {:induction false} FilterDropLast(s: seq<string>, tag: string)
    ensures Seqs.Filter(s + [tag], (t: string) => t != tag) == Seqs.Filter(s, (t: string) => t != tag)
  {
    if |s| == 0 {
      assert [] + [tag] == [tag];
    } else {
      FilterDropLast(s[1..], tag);
      assert (s + [tag])[1..] == s[1..] + [tag];
    }
  }

  /** The page's filter controls. */
  datatype Filters = Filters(term: string, category: string, sortBy: string, selectedTags: seq<string>)

  const InitialFilters: Filters := Filters("", AllCategories, "popular", [])

  /** "Clear all filters": empty search, category `All`, no tags; the sort
      choice is kept. */
  function ClearAll(f: Filters): (r: Filters)
    ensures r.term == "" && r.category == AllCategories && r.selectedTags == []
    ensures r.sortBy == f.sortBy
  {
    f.(term := "", category := AllCategories, selectedTags := [])
  }

  /** "Clear tags": only the tag selection is emptied. */
  function ClearTags(f: Filters): (r: Filters)
    ensures r.selectedTags == [] && r.term == f.term && r.category == f.category && r.sortBy == f.sortBy
  {
    f.(selectedTags := [])
  }

  /** After clearing all filters every skill of the catalogue is listed. */
  lemma ClearAllShowsEverything(skills: seq<Skill>, f: Filters)
    ensures var c := ClearAll(f);
            multiset(FilteredSkills(skills, c.term, c.category, c.sortBy, c.selectedTags)) == multiset(skills)
  {
    var c := ClearAll(f);
    forall s ensures Passes(s, c.term, c.category, c.selectedTags) {
      Text.ContainsEmpty(Text.Lower(s.skillName));
    }
    var r := FilteredSkills(skills, c.term, c.category, c.sortBy, c.selectedTags);
    assert forall s :: multiset(r)[s] == multiset(skills)[s];
  }
}
