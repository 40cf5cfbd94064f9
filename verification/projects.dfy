/** The public projects page (src/pages/Projects.tsx): a fixed catalogue
    of six projects, the category tabs that filter it, the empty state
    and the category badge of a card. */
module ProjectsPage {

  /** A catalogue entry: its title and category. The description, tech
      stack, image and links are only rendered. */
  datatype Project = Project(title: string, category: string)

  const Web := "web"
  const Mobile := "mobile"
  const All := "all"

  const RwandaShop := Project("RwandaShop", Web)
  const KigaliConnect := Project("KigaliConnect", Web)
  const RwandanLearn := Project("RwandanLearn", Web)
  const RwandaScratchMobile := Project("RwandaScratch Mobile", Mobile)
  const KigaliTransit := Project("KigaliTransit", Mobile)
  const RwandaHealth := Project("RwandaHealth", Mobile)

  /** The catalogue, in display order. */
  const Catalogue: seq<Project> :=
    [RwandaShop, KigaliConnect, RwandanLearn, RwandaScratchMobile, KigaliTransit, RwandaHealth]

  /** The ids of the three tabs. */
  const Tabs: seq<string> := [All, Web, Mobile]

  /** `projects.filter(project => project.category === c)` */
  function Keep(ps: seq<Project>, c: string): (r: seq<Project>)
    ensures forall p :: p in r <==> p in ps && p.category == c
    ensures |r| <= |ps|
  {
    if ps == [] then []
    else if ps[0].category == c then [ps[0]] + Keep(ps[1..], c)
    else Keep(ps[1..], c)
  }

  /** The filter distributes over concatenation, so it keeps the projects
      in their original order. */
  lemma {:induction false} KeepAppend(a: seq<Project>, b: seq<Project>, c: string)
    ensures Keep(a + b, c) == Keep(a, c) + Keep(b, c)
  {
    if a != [] {
      assert (a + b)[1..] == a[1..] + b;
      KeepAppend(a[1..], b, c);
    } else {
      assert a + b == b;
    }
  }

  /** A list of projects all of category `c` passes the filter whole. */
  lemma {:induction false} KeepAll(ps: seq<Project>, c: string)
    requires forall i :: 0 <= i < |ps| ==> ps[i].category == c
    ensures Keep(ps, c) == ps
  {
    if ps != [] {
      KeepAll(ps[1..], c);
    }
  }

  /** A list with no project of category `c` filters to nothing. */
  lemma {:induction false} KeepNone(ps: seq<Project>, c: string)
    requires forall i :: 0 <= i < |ps| ==> ps[i].category != c
    ensures Keep(ps, c) == []
  {
    if ps != [] {
      KeepNone(ps[1..], c);
    }
  }

  /** `filteredProjects`: the whole catalogue for "all", otherwise the
      projects of the chosen category. */
  function Filtered(active: string): (r: seq<Project>)
    ensures active == All ==> r == Catalogue
    ensures active != All ==> r == Keep(Catalogue, active)
  {
    if active == All then Catalogue else Keep(Catalogue, active)
  }

  /** When every project is "web" or "mobile", the two filters split the
      list: together they hold each project as often as the list does. */
  lemma {:induction false} WebMobilePartition(ps: seq<Project>)
    requires forall i :: 0 <= i < |ps| ==> ps[i].category == Web || ps[i].category == Mobile
    ensures multiset(Keep(ps, Web)) + multiset(Keep(ps, Mobile)) == multiset(ps)
    ensures |Keep(ps, Web)| + |Keep(ps, Mobile)| == |ps|
  {
    if ps != [] {
      WebMobilePartition(ps[1..]);
      assert ps == [ps[0]] + ps[1..];
      assert multiset(ps) == multiset{ps[0]} + multiset(ps[1..]);
    }
  }

  /** The first three projects are web apps and the last three mobile apps. */
  lemma CatalogueCategories()
    ensures |Catalogue| == 6
    ensures forall i :: 0 <= i < 3 ==> Catalogue[i].category == Web
    ensures forall i :: 3 <= i < 6 ==> Catalogue[i].category == Mobile
  {
  }

  /** When the first `k` projects and only they have category `c`, the
      filter keeps exactly those `k`. */
  lemma {:induction false} KeepPrefix(ps: seq<Project>, k: nat, c: string)
    requires k <= |ps|
    requires forall i :: 0 <= i < k ==> ps[i].category == c
    requires forall i :: k <= i < |ps| ==> ps[i].category != c
    ensures Keep(ps, c) == ps[..k]
  {
    if k == 0 {
      KeepNone(ps, c);
    } else {
      KeepPrefix(ps[1..], k - 1, c);
      assert ps[..k] == [ps[0]] + ps[1..][..k - 1];
    }
  }

  /** When the projects from index `k` on and only they have category
      `c`, the filter keeps exactly those. */
  lemma {:induction false} KeepSuffix(ps: seq<Project>, k: nat, c: string)
    requires k <= |ps|
    requires forall i :: 0 <= i < k ==> ps[i].category != c
    requires forall i :: k <= i < |ps| ==> ps[i].category == c
    ensures Keep(ps, c) == ps[k..]
  {
    if k == 0 {
      KeepAll(ps, c);
    } else {
      KeepSuffix(ps[1..], k - 1, c);
      assert ps[k..] == ps[1..][k - 1..];
    }
  }

  /** The "web" tab shows the first three projects and the "mobile" tab
      the last three. */
  lemma {:induction false} CategoryTab(c: string)
    requires c == Web || c == Mobile
    ensures c == Web ==> Filtered(c) == Catalogue[..3]
    ensures c == Mobile ==> Filtered(c) == Catalogue[3..]
  {
    CatalogueCategories();
    if c == Web {
      KeepPrefix(Catalogue, 3, c);
    } else {
      KeepSuffix(Catalogue, 3, c);
    }
  }

  /** Between them the "web" and "mobile" tabs show every project once. */
  lemma {:induction false} CatalogueByCategory()
    ensures multiset(Filtered(Web)) + multiset(Filtered(Mobile)) == multiset(Catalogue)
  {
    CategoryTab(Web);
    CategoryTab(Mobile);
    SplitMultiset(Catalogue, 3);
  }

  lemma {:induction false} SplitMultiset(ps: seq<Project>, k: nat)
    requires k <= |ps|
    ensures multiset(ps[..k]) + multiset(ps[k..]) == multiset(ps)
  {
    assert ps == ps[..k] + ps[k..];
  }

  /** The "No Projects Yet" state shows when the filter leaves nothing. */
  function ShowsEmptyState(active: string): (empty: bool)
    ensures empty <==> Filtered(active) == []
  {
    |Filtered(active)| == 0
  }

  /** None of the three tabs shows the empty state; any other category
      would. */
  lemma {:induction false} EmptyStateOnlyOffTabs(active: string)
    ensures ShowsEmptyState(active) <==> active !in Tabs
  {
    if active == All {
      assert Filtered(active) == Catalogue;
      assert |Catalogue| == 6;
    } else if active == Web || active == Mobile {
      CategoryTab(active);
    } else {
      assert active != All && active != Web && active != Mobile;
      CatalogueCategories();
      KeepNone(Catalogue, active);
      assert Filtered(active) == [];
    }
  }

  /** The badge of a card. */
  function Badge(p: Project): (badge: string)
    ensures badge == "Web App" <==> p.category == Web
    ensures badge == "Mobile App" <==> p.category != Web
  {
    if p.category == Web then "Web App" else "Mobile App"
  }
}
