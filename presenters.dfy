/**
 * Presenter resolution in `render_site`: the people of the site keyed by
 * slug, and the `presenter_details` of an event, the people its
 * `presenters` slugs name, in order, unknown slugs dropped.
 */
module Presenters {
  import opened Wrappers
  import opened Content

  /** Every person has a single-line slug; a list cannot key a dictionary (`TypeError`). */
  predicate SlugsAreText(people: seq<Item>) {
    forall i | 0 <= i < |people| :: HasTextSlug(people[i])
  }

  function SlugOf(p: Item): string
    requires HasTextSlug(p)
  {
    p.fields["slug"].text
  }

  /** `people[i]` is the last person whose slug is `slug`. */
  predicate IsLastWithSlug(people: seq<Item>, i: int, slug: string)
    requires SlugsAreText(people)
  {
    && 0 <= i < |people|
    && SlugOf(people[i]) == slug
    && forall j | i < j < |people| :: SlugOf(people[j]) != slug
  }

  /**
   * `{p['slug']: p for p in people}`: every person's slug is a key, and a
   * key maps to the last person with that slug.
   */
  function PeopleBySlug(people: seq<Item>): map<string, Item>
    requires SlugsAreText(people)
    decreases |people|
  {
    if people == [] then map[]
    else
      var init, last := people[..|people| - 1], people[|people| - 1];
      assert SlugsAreText(init);
      PeopleBySlug(init)[SlugOf(last) := last]
  }

  /** Every person's slug is a key, and a key maps to the last person with that slug. */
  lemma {:induction false} PeopleBySlugLastWins(people: seq<Item>)
    requires SlugsAreText(people)
    ensures var m := PeopleBySlug(people);
      && (forall i | 0 <= i < |people| :: SlugOf(people[i]) in m)
      && (forall slug | slug in m :: exists i :: IsLastWithSlug(people, i, slug) && m[slug] == people[i])
    decreases |people|
  {
    if people != [] {
      var init := people[..|people| - 1];
      assert SlugsAreText(init);
      PeopleBySlugLastWins(init);
      LastWinsStep(people, PeopleBySlug(init));
      assert forall i | 0 <= i < |people| - 1 :: people[i] == init[i];
    }
  }

  /** The step of `PeopleBySlug`: adding one more person to the map of those before. */
  lemma LastWinsStep(people: seq<Item>, m: map<string, Item>)
    requires SlugsAreText(people) && people != []
    requires var init := people[..|people| - 1];
      forall slug | slug in m :: exists i :: IsLastWithSlug(init, i, slug) && m[slug] == init[i]
    ensures var last := people[|people| - 1]; var r := m[SlugOf(last) := last];
      forall slug | slug in r :: exists i :: IsLastWithSlug(people, i, slug) && r[slug] == people[i]
  {
    var init, last := people[..|people| - 1], people[|people| - 1];
    var r := m[SlugOf(last) := last];
    forall slug | slug in r
      ensures exists i :: IsLastWithSlug(people, i, slug) && r[slug] == people[i]
    {
      if slug == SlugOf(last) {
        assert IsLastWithSlug(people, |people| - 1, slug);
      } else {
        var i :| IsLastWithSlug(init, i, slug) && m[slug] == init[i];
        assert IsLastWithSlug(people, i, slug);
      }
    }
  }

  /**
   * `[people_map.get(s) for s in slugs if s in people_map and
   * people_map.get(s) is not None]`; no value of the map is `None`.
   */
  function Resolve(slugs: seq<string>, byslug: map<string, Item>): (r: seq<Item>)
    ensures |r| <= |slugs|
    decreases |slugs|
  {
    if slugs == [] then []
    else (if slugs[0] in byslug then [byslug[slugs[0]]] else []) + Resolve(slugs[1..], byslug)
  }

  /**
   * Every resolved presenter is the person of one of the given slugs:
   * unknown slugs are dropped, never turned into `None`.
   */
  lemma {:induction false} ResolvedArePeople(slugs: seq<string>, byslug: map<string, Item>)
    ensures forall p | p in Resolve(slugs, byslug) :: exists s | s in slugs && s in byslug :: byslug[s] == p
    decreases |slugs|
  {
    if slugs != [] {
      ResolvedArePeople(slugs[1..], byslug);
      forall p | p in Resolve(slugs, byslug)
        ensures exists s | s in slugs && s in byslug :: byslug[s] == p
      {
        if p !in Resolve(slugs[1..], byslug) {
          assert byslug[slugs[0]] == p;
        } else {
          var s :| s in slugs[1..] && s in byslug && byslug[s] == p;
          assert s in slugs;
        }
      }
    }
  }

  /** Resolving a list is resolving its parts in turn: order and repetitions are kept. */
  lemma {:induction false} ResolveAppend(s: seq<string>, t: seq<string>, byslug: map<string, Item>)
    ensures Resolve(s + t, byslug) == Resolve(s, byslug) + Resolve(t, byslug)
    decreases |s|
  {
    if s != [] {
      assert (s + t)[1..] == s[1..] + t;
      ResolveAppend(s[1..], t, byslug);
    } else {
      assert s + t == t;
    }
  }

  /** When every slug is known, each one gives its own person, position by position. */
  lemma {:induction false} ResolveAllKnown(slugs: seq<string>, byslug: map<string, Item>)
    requires forall i | 0 <= i < |slugs| :: slugs[i] in byslug
    ensures |Resolve(slugs, byslug)| == |slugs|
    ensures forall i | 0 <= i < |slugs| :: Resolve(slugs, byslug)[i] == byslug[slugs[i]]
    decreases |slugs|
  {
    if slugs != [] {
      ResolveAllKnown(slugs[1..], byslug);
    }
  }

  /** The presenters of an event written on it as `presenter_details`; other events are left alone. */
  function ResolveEvent(e: Item, byslug: map<string, Item>): (r: Item)
    ensures r.fields == e.fields && r.dateObj == e.dateObj
    ensures "presenters" !in e.fields ==> r == e
    ensures "presenters" in e.fields ==>
      r.presenterDetails == Some(Resolve(Lines(e.fields["presenters"]), byslug))
  {
    if "presenters" in e.fields
    then e.(presenterDetails := Some(Resolve(Lines(e.fields["presenters"]), byslug)))
    else e
  }

  /** A single presenter slug resolves as the list holding just that slug. */
  lemma ScalarPresenterAsList(e: Item, slug: string, byslug: map<string, Item>)
    ensures ResolveEvent(e.(fields := e.fields["presenters" := Scalar(slug)]), byslug).presenterDetails
         == ResolveEvent(e.(fields := e.fields["presenters" := Multi([slug])]), byslug).presenterDetails
  {
  }
}
