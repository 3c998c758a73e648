/**
 * The admin category table: the tree `GET /api/admin/categories` returns,
 * rendered as one table row per category in pre-order with its depth, in
 * two versions (the page's own row component and the shared one), plus
 * the archive/unarchive flow behind the confirmation modal.
 */
module CategoryTree {
  import opened Wrappers
  import opened Http
  import opened Text
  import opened Toasts

  /** A category with its sub-categories; a missing `children` is `[]`. */
  datatype Category = Category(id: int, name: string, description: string, archived: bool, children: seq<Category>)

  /** One rendered table row: the category and its depth. */
  datatype Row = Row(category: Category, level: nat)

  /** The rows the row component renders for a list of sibling categories at
      `level`: each category's own row, then its children's rows one level
      deeper, then the next sibling. */
  function Rows(cs: seq<Category>, level: nat): seq<Row>
    decreases cs
  {
    if cs == [] then []
    else
      assert cs[0] in cs;
      [Row(cs[0], level)] + Rows(cs[0].children, level + 1) + Rows(cs[1..], level)
  }

  /** The number of categories in a forest. */
  function Count(cs: seq<Category>): nat
    decreases cs
  {
    if cs == [] then 0
    else
      assert cs[0] in cs;
      1 + Count(cs[0].children) + Count(cs[1..])
  }

  /** A category occurs somewhere in a forest. */
  predicate InForest(x: Category, cs: seq<Category>)
    decreases cs
  {
    if cs == [] then false
    else
      assert cs[0] in cs;
      x == cs[0] || InForest(x, cs[0].children) || InForest(x, cs[1..])
  }

  /** One row per category of the tree. */
  lemma {:induction false} RowCount(cs: seq<Category>, level: nat)
    ensures |Rows(cs, level)| == Count(cs)
    decreases cs
  {
    if cs != [] {
      assert cs[0] in cs;
      RowCount(cs[0].children, level + 1);
      RowCount(cs[1..], level);
    }
  }

  /** Some row shows category `x`. */
  predicate HasRow(rows: seq<Row>, x: Category) {
    exists i :: 0 <= i < |rows| && rows[i].category == x
  }

  /** A category is shown by a concatenation of rows exactly when one of the
      parts shows it. */
  lemma HasRowConcat(a: seq<Row>, b: seq<Row>, x: Category)
    ensures HasRow(a + b, x) <==> HasRow(a, x) || HasRow(b, x)
  {
    var ab := a + b;
    if HasRow(ab, x) {
      var i :| 0 <= i < |ab| && ab[i].category == x;
      if i < |a| {
        assert a[i] == ab[i];
      } else {
        assert b[i - |a|] == ab[i];
      }
    }
    if HasRow(a, x) {
      var i :| 0 <= i < |a| && a[i].category == x;
      assert ab[i] == a[i];
    }
    if HasRow(b, x) {
      var i :| 0 <= i < |b| && b[i].category == x;
      assert ab[|a| + i] == b[i];
    }
  }

  /** The rows are exactly the categories of the tree. */
  lemma {:induction false} RowsAreTheTree(cs: seq<Category>, level: nat, x: Category)
    ensures HasRow(Rows(cs, level), x) <==> InForest(x, cs)
    decreases cs
  {
    if cs != [] {
      assert cs[0] in cs;
      var own, kids, rest := [Row(cs[0], level)], Rows(cs[0].children, level + 1), Rows(cs[1..], level);
      RowsAreTheTree(cs[0].children, level + 1, x);
      RowsAreTheTree(cs[1..], level, x);
      HasRowConcat(own + kids, rest, x);
      HasRowConcat(own, kids, x);
      assert HasRow(own, x) <==> x == cs[0] by {
        if x == cs[0] {
          assert own[0].category == x;
        }
      }
    }
  }

  /** Sibling lists render one after the other. */
  lemma {:induction false} RowsConcat(a: seq<Category>, b: seq<Category>, level: nat)
    ensures Rows(a + b, level) == Rows(a, level) + Rows(b, level)
    decreases a
  {
    if a == [] {
      assert a + b == b;
    } else {
      assert (a + b)[0] == a[0] && (a + b)[1..] == a[1..] + b;
      RowsConcat(a[1..], b, level);
    }
  }

  /** Rows whose depths nest as a pre-order traversal's do: the first row is
      at the base level, no row is above it, and a row is at most one level
      deeper than the row before it (a child comes right under its parent
      or under an earlier sibling's last descendant). */
  predicate WellNested(rows: seq<Row>, base: nat) {
    (rows != [] ==> rows[0].level == base) &&
    (forall i :: 0 <= i < |rows| ==> rows[i].level >= base) &&
    (forall i :: 0 < i < |rows| ==> rows[i].level <= rows[i - 1].level + 1)
  }

  lemma WellNestedConcat(a: seq<Row>, b: seq<Row>, base: nat)
    requires WellNested(a, base) && WellNested(b, base)
    ensures WellNested(a + b, base)
  {
    var ab := a + b;
    forall i | 0 < i < |ab|
      ensures ab[i].level <= ab[i - 1].level + 1
    {
      if i < |a| {
        assert ab[i] == a[i] && ab[i - 1] == a[i - 1];
      } else if i == |a| {
        assert ab[i] == b[0] && ab[i - 1] == a[|a| - 1];
      } else {
        assert ab[i] == b[i - |a|] && ab[i - 1] == b[i - 1 - |a|];
      }
    }
    forall i | 0 <= i < |ab|
      ensures ab[i].level >= base
    {
      if i < |a| {
        assert ab[i] == a[i];
      } else {
        assert ab[i] == b[i - |a|];
      }
    }
  }

  lemma WellNestedUnder(r: Row, kids: seq<Row>)
    requires WellNested(kids, r.level + 1)
    ensures WellNested([r] + kids, r.level)
  {
    var all := [r] + kids;
    forall i | 0 < i < |all|
      ensures all[i].level <= all[i - 1].level + 1
    {
      assert all[i] == kids[i - 1];
      if i > 1 {
        assert all[i - 1] == kids[i - 2];
      }
    }
    forall i | 0 < i < |all|
      ensures all[i].level >= r.level
    {
      assert all[i] == kids[i - 1];
    }
  }

  /** The rendered depths always nest: each child sits one level under its
      parent, never deeper than the row above allows. */
  lemma {:induction false} RowsWellNested(cs: seq<Category>, level: nat)
    ensures WellNested(Rows(cs, level), level)
    decreases cs
  {
    if cs != [] {
      assert cs[0] in cs;
      RowsWellNested(cs[0].children, level + 1);
      RowsWellNested(cs[1..], level);
      WellNestedUnder(Row(cs[0], level), Rows(cs[0].children, level + 1));
      WellNestedConcat([Row(cs[0], level)] + Rows(cs[0].children, level + 1), Rows(cs[1..], level), level);
    }
  }

  /** A category's own row comes first, and its children's rows follow it
      directly, one level deeper. */
  lemma ChildrenFollowParent(c: Category, rest: seq<Category>, level: nat)
    ensures var rows, kids := Rows([c] + rest, level), Rows(c.children, level + 1);
      |rows| > |kids| && rows[0] == Row(c, level) && rows[1..1 + |kids|] == kids
  {
    var cs := [c] + rest;
    assert cs[0] == c && cs[1..] == rest;
    var kids := Rows(c.children, level + 1);
    assert Rows(cs, level) == [Row(c, level)] + kids + Rows(rest, level);
    assert (([Row(c, level)] + kids) + Rows(rest, level))[1..1 + |kids|] == kids;
  }

  // ------------------------------------------------------------ rendering

  datatype ButtonVariant = Outline | Secondary | Danger | Primary

  /** What one row shows, as far as the component decides it. */
  datatype RowView = RowView(
    indentRem: real,
    arrow: bool,
    struckThrough: bool,
    actionLabel: string,
    actionVariant: ButtonVariant,
    editPath: string)

  function EditPath(c: Category): string {
    "/admin/categories/edit/" + NumberToString(Finite(c.id))
  }

  /** The admin page's own row: indent `1 + 1.5·level` rem; an archived
      category is struck through and offers to be unarchived. */
  function AdminRowView(r: Row): (v: RowView)
    ensures v.indentRem == 1.0 + 1.5 * (r.level as real)
    ensures v.arrow <==> r.level > 0
    ensures v.struckThrough <==> r.category.archived
    ensures r.category.archived ==> v.actionLabel == "Unarchive" && v.actionVariant == Secondary
    ensures !r.category.archived ==> v.actionLabel == "Archive" && v.actionVariant == Danger
    ensures v.editPath == EditPath(r.category)
  {
    var archived := r.category.archived;
    RowView(1.0 + 1.5 * (r.level as real), r.level > 0, archived,
      if archived then "Unarchive" else "Archive",
      if archived then Secondary else Danger,
      EditPath(r.category))
  }

  /** The shared row component: indent `1.5 + 1.5·level` rem, no strike
      through, and "Archive" whatever the category's status. */
  function SharedRowView(r: Row): (v: RowView)
    ensures v.indentRem == 1.5 + 1.5 * (r.level as real)
    ensures v.arrow <==> r.level > 0
    ensures !v.struckThrough
    ensures v.actionLabel == "Archive" && v.actionVariant == Danger
    ensures v.editPath == EditPath(r.category)
  {
    RowView(1.5 + 1.5 * (r.level as real), r.level > 0, false, "Archive", Danger, EditPath(r.category))
  }

  /** The two row components agree on everything but the indentation (half
      a rem apart) and an archived category, which only the admin page's
      own row shows as such. */
  lemma RowViewsAgree(r: Row)
    ensures SharedRowView(r).indentRem == AdminRowView(r).indentRem + 0.5
    ensures SharedRowView(r).arrow == AdminRowView(r).arrow
    ensures SharedRowView(r) == AdminRowView(r).(indentRem := AdminRowView(r).indentRem + 0.5)
      <==> !r.category.archived
  {
  }

  /** A deeper row is indented further, by 1.5 rem per level. */
  lemma DeeperIndentedFurther(r: Row, s: Row)
    requires r.level < s.level
    ensures AdminRowView(s).indentRem - AdminRowView(r).indentRem == 1.5 * ((s.level - r.level) as real)
    ensures AdminRowView(r).indentRem < AdminRowView(s).indentRem
    ensures SharedRowView(r).indentRem < SharedRowView(s).indentRem
  {
  }

  // ------------------------------------------------------------ the page

  datatype State = State(tree: seq<Category>, isLoading: bool, categoryToToggle: Option<Category>)

  const Initial := State([], true, None)

  /** `fetchCategories`: the tree replaces the old one; a failure keeps it
      and raises a toast. Loading ends either way. */
  function FetchDone(st: State, resp: Response<seq<Category>>): (r: (State, Option<Toast>))
    ensures !r.0.isLoading && r.0.categoryToToggle == st.categoryToToggle
    ensures resp.Ok? ==> r.0.tree == resp.data && r.1.None?
    ensures resp.Err? ==> r.0.tree == st.tree && r.1 == Some(ErrorToast("Failed to fetch categories."))
  {
    match resp
    case Ok(tree) => (st.(tree := tree, isLoading := false), None)
    case Err(_, _) => (st.(isLoading := false), Some(ErrorToast("Failed to fetch categories.")))
  }

  /** The rows of the page once loaded; none while loading. */
  function PageRows(st: State): (rows: seq<Row>)
    ensures st.isLoading ==> rows == []
    ensures !st.isLoading ==> rows == Rows(st.tree, 0)
  {
    if st.isLoading then [] else Rows(st.tree, 0)
  }

  /** A row's action button selects its category, which opens the modal. */
  function ArchiveClick(st: State, c: Category): (r: State)
    ensures r.categoryToToggle == Some(c) && r.tree == st.tree && r.isLoading == st.isLoading
  {
    st.(categoryToToggle := Some(c))
  }

  predicate ModalOpen(st: State) {
    st.categoryToToggle.Some?
  }

  /** The modal's verb: "Unarchive" exactly for an archived selection. */
  function ModalActionText(st: State): (t: string)
    ensures t == "Unarchive" <==> st.categoryToToggle.Some? && st.categoryToToggle.value.archived
    ensures t == "Archive" || t == "Unarchive"
  {
    if st.categoryToToggle.Some? && st.categoryToToggle.value.archived then "Unarchive" else "Archive"
  }

  /** The confirm button is a danger button exactly for archiving. */
  function ConfirmVariant(st: State): (v: ButtonVariant)
    ensures v == Danger <==> ModalActionText(st) == "Archive"
    ensures v == Danger || v == Primary
  {
    if ModalActionText(st) == "Archive" then Danger else Primary
  }

  /** The modal offers the same action as the row that opened it. */
  lemma ModalMatchesRow(st: State, r: Row)
    ensures var s := ArchiveClick(st, r.category);
      ModalOpen(s) && ModalActionText(s) == AdminRowView(r).actionLabel &&
      (ConfirmVariant(s) == Danger <==> AdminRowView(r).actionVariant == Danger)
  {
  }

  /** What `handleToggleArchive` does: the archive request it sends, the
      state it leaves, its toast, and whether it re-fetches the tree. */
  datatype ToggleOutcome = ToggleOutcome(state: State, request: Option<string>, toast: Option<Toast>, refetch: bool)

  function ArchivePath(c: Category): string {
    "/api/admin/categories/" + NumberToString(Finite(c.id)) + "/archive"
  }

  function ToggleSuccessText(c: Category): string {
    "Category \"" + c.name + "\" status updated successfully."
  }

  /** `resp` is the answer to the archive request; it is not consulted when
      nothing is selected, since then no request is sent. */
  function HandleToggle(st: State, resp: Response<()>): (r: ToggleOutcome)
    ensures st.categoryToToggle.None? ==> r == ToggleOutcome(st, None, None, false)
    ensures st.categoryToToggle.Some? ==>
      r.state == st.(categoryToToggle := None) && r.request == Some(ArchivePath(st.categoryToToggle.value))
    ensures st.categoryToToggle.Some? ==> (r.refetch <==> resp.Ok?)
    ensures st.categoryToToggle.Some? && resp.Ok? ==>
      r.toast == Some(SuccessToast(ToggleSuccessText(st.categoryToToggle.value)))
    ensures st.categoryToToggle.Some? && resp.Err? ==>
      r.toast == Some(ErrorToast(ErrorText(resp, "Failed to update category status.")))
  {
    match st.categoryToToggle
    case None => ToggleOutcome(st, None, None, false)
    case Some(c) =>
      var cleared := st.(categoryToToggle := None);
      match resp
      case Ok(_) => ToggleOutcome(cleared, Some(ArchivePath(c)), Some(SuccessToast(ToggleSuccessText(c))), true)
      case Err(_, _) => ToggleOutcome(cleared, Some(ArchivePath(c)), Some(ErrorToast(ErrorText(resp, "Failed to update category status."))), false)
  }

  /** Confirming always closes the modal; the tree itself only changes
      through the re-fetch. */
  lemma ToggleClosesModal(st: State, c: Category, resp: Response<()>)
    ensures var r := HandleToggle(ArchiveClick(st, c), resp);
      !ModalOpen(r.state) && r.state.tree == st.tree && r.request == Some(ArchivePath(c))
  {
  }

  /** The table after a fetch: one row per category of the tree that came
      back, in pre-order; after a failure, the rows of the tree shown before. */
  lemma PageAfterFetch(st: State, resp: Response<seq<Category>>)
    ensures var shown := if resp.Ok? then resp.data else st.tree;
      PageRows(FetchDone(st, resp).0) == Rows(shown, 0) && |PageRows(FetchDone(st, resp).0)| == Count(shown)
  {
    var shown := if resp.Ok? then resp.data else st.tree;
    RowCount(shown, 0);
  }
}
