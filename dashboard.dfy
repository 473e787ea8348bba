/**
 * The order of the cards on the dashboard (`renderDashboard` in
 * public/script.js): items of the Miscellaneous and Savings groups are
 * dropped, a folder card is pushed for each of the two groups unless an item
 * already carries its name, and the list is rebuilt as Milk, then the other
 * items by name, then Miscellaneous, then Savings.
 */
module Dashboard {
  import opened Seqs
  import opened CategoryModel

  const MilkName: string := "Milk"
  const MiscName: string := "Miscellaneous"
  const SavingsName: string := "Savings"

  /** A category from the API, or one of the two folder objects the script creates. */
  datatype Card = Stored(category: Category) | Folder(name: string)

  function CardName(c: Card): string {
    match c
    case Stored(cat) => cat.name
    case Folder(n) => n
  }

  /** `c.parentCategory !== 'Miscellaneous' && c.parentCategory !== 'Savings'`. */
  function OutsideFolders(): Category -> bool {
    (c: Category) => c.parentCategory != MiscName && c.parentCategory != SavingsName
  }

  function AsCards(cats: seq<Category>): (r: seq<Card>)
    ensures |r| == |cats|
    ensures forall i :: 0 <= i < |cats| ==> r[i] == Stored(cats[i])
  {
    seq(|cats|, i requires 0 <= i < |cats| => Stored(cats[i]))
  }

  /** `list.some(c => c.name === name)`. */
  predicate HasName(list: seq<Card>, name: string) {
    exists i :: 0 <= i < |list| && CardName(list[i]) == name
  }

  function Named(name: string): Card -> bool {
    (c: Card) => CardName(c) == name
  }

  /** Pushes a folder card named `name` unless some card already has that name. */
  function PushFolder(list: seq<Card>, name: string): (r: seq<Card>)
    ensures HasName(r, name)
    ensures list <= r && |r| <= |list| + 1
    ensures r != list <==> !HasName(list, name)
    ensures |r| > |list| ==> r[|list|] == Folder(name)
  {
    if HasName(list, name) then list
    else
      var r := list + [Folder(name)];
      assert CardName(r[|list|]) == name;
      r
  }

  /** `dashboardList` once the group items are dropped and the two folders ensured. */
  function Board(cats: seq<Category>): (r: seq<Card>)
    ensures HasName(r, MiscName) && HasName(r, SavingsName)
  {
    var withMisc := PushFolder(AsCards(Filter(cats, OutsideFolders())), MiscName);
    var r := PushFolder(withMisc, SavingsName);
    assert HasName(r, MiscName) by {
      var k :| 0 <= k < |withMisc| && CardName(withMisc[k]) == MiscName;
      assert r[k] == withMisc[k];
    }
    r
  }

  /** The board holds every visible category, and besides them only the two folders. */
  lemma BoardMembers(cats: seq<Category>)
    ensures forall x :: x in Board(cats) ==>
              || (x.Stored? && x.category in cats && OutsideFolders()(x.category))
              || x == Folder(MiscName) || x == Folder(SavingsName)
    ensures forall c :: c in cats && OutsideFolders()(c) ==> Stored(c) in Board(cats)
  {
    var kept := Filter(cats, OutsideFolders());
    var visible := AsCards(kept);
    var withMisc := PushFolder(visible, MiscName);
    assert Board(cats) == PushFolder(withMisc, SavingsName);
    forall c | c in cats && OutsideFolders()(c) ensures Stored(c) in visible {
      var k :| 0 <= k < |kept| && kept[k] == c;
      assert visible[k] == Stored(c);
    }
    forall x | x in visible ensures x.Stored? && x.category in kept {
      var k :| 0 <= k < |visible| && visible[k] == x;
      assert kept[k] in kept;
    }
  }

  /** `list.find(c => c.name === name)`, as a list of zero or one card. */
  function Special(list: seq<Card>, name: string): (r: seq<Card>)
    ensures |r| <= 1
    ensures r == [] <==> !HasName(list, name)
    ensures r != [] ==> CardName(r[0]) == name
    ensures r != [] ==> r[0] in list
  {
    var i := FindFirst(list, Named(name));
    if i < 0 then [] else [list[i]]
  }

  /** The cards that are none of Milk, Miscellaneous and Savings. */
  function IsGeneral(): Card -> bool {
    (c: Card) => CardName(c) != MilkName && CardName(c) != MiscName && CardName(c) != SavingsName
  }

  /** `a.name.localeCompare(b.name) <= 0`, for the collation `collate` stands for. */
  function ByName(collate: (string, string) -> bool): (Card, Card) -> bool {
    (a: Card, b: Card) => collate(CardName(a), CardName(b))
  }

  lemma ByNamePreorder(collate: (string, string) -> bool)
    requires TotalPreorder(collate)
    ensures TotalPreorder(ByName(collate))
  {
    forall a: Card, b: Card ensures ByName(collate)(a, b) || ByName(collate)(b, a) {
      assert collate(CardName(a), CardName(b)) || collate(CardName(b), CardName(a));
    }
    forall a: Card, b: Card, c: Card | ByName(collate)(a, b) && ByName(collate)(b, c)
      ensures ByName(collate)(a, c)
    {
      assert collate(CardName(a), CardName(b)) && collate(CardName(b), CardName(c));
    }
  }

  /** The general cards, sorted by name. */
  function General(list: seq<Card>, collate: (string, string) -> bool): seq<Card> {
    SortBy(Filter(list, IsGeneral()), ByName(collate))
  }

  /** `[milkCat] + generalCats + [miscCat] + [savingsCat]`, each special card only if found. */
  function DashboardList(cats: seq<Category>, collate: (string, string) -> bool): seq<Card> {
    var board := Board(cats);
    Special(board, MilkName) + General(board, collate) + Special(board, MiscName) + Special(board, SavingsName)
  }

  /** Some category outside the two groups is named Milk. */
  predicate HasMilk(cats: seq<Category>) {
    exists i :: 0 <= i < |cats| && OutsideFolders()(cats[i]) && cats[i].name == MilkName
  }

  lemma BoardMilk(cats: seq<Category>)
    ensures HasName(Board(cats), MilkName) <==> HasMilk(cats)
  {
    var b := Board(cats);
    BoardMembers(cats);
    if HasName(b, MilkName) {
      var k :| 0 <= k < |b| && CardName(b[k]) == MilkName;
      assert b[k] in b;
      var j :| 0 <= j < |cats| && cats[j] == b[k].category;
    }
    if HasMilk(cats) {
      var j :| 0 <= j < |cats| && OutsideFolders()(cats[j]) && cats[j].name == MilkName;
      assert cats[j] in cats;
      assert Stored(cats[j]) in b;
      var k :| 0 <= k < |b| && b[k] == Stored(cats[j]);
    }
  }

  /** Only general cards go into the general part. */
  lemma GeneralOnly(list: seq<Card>, collate: (string, string) -> bool)
    ensures forall x :: x in General(list, collate) ==> IsGeneral()(x)
  {
    forall x | x in General(list, collate) ensures IsGeneral()(x) {
      assert x in multiset(Filter(list, IsGeneral()));
    }
  }

  /** The general part is a permutation of the general cards of the board. */
  lemma GeneralMembers(list: seq<Card>, collate: (string, string) -> bool)
    ensures multiset(General(list, collate)) == multiset(Filter(list, IsGeneral()))
    ensures forall x :: x in General(list, collate) <==> x in list && IsGeneral()(x)
  {
    var g, f := General(list, collate), Filter(list, IsGeneral());
    forall x ensures x in g <==> x in f {
      assert x in g <==> x in multiset(g);
      assert x in f <==> x in multiset(f);
    }
  }

  /** The layout of `[milk] + general + [misc] + [savings]`, whatever the pieces hold. */
  lemma Layout(milk: seq<Card>, gen: seq<Card>, misc: seq<Card>, sav: seq<Card>)
    requires |milk| <= 1 && |misc| == 1 && |sav| == 1
    requires milk != [] ==> CardName(milk[0]) == MilkName
    requires forall x :: x in gen ==> IsGeneral()(x)
    requires CardName(misc[0]) == MiscName && CardName(sav[0]) == SavingsName
    ensures var out := milk + gen + misc + sav;
            && |out| >= 2
            && out[|milk|..|out| - 2] == gen
            && CardName(out[|out| - 2]) == MiscName && CardName(out[|out| - 1]) == SavingsName
            && (forall i :: 0 <= i < |out| - 2 ==> CardName(out[i]) != MiscName && CardName(out[i]) != SavingsName)
            && (milk != [] <==> CardName(out[0]) == MilkName)
            && (forall i :: 0 < i < |out| ==> CardName(out[i]) != MilkName)
  {
    var out := milk + gen + misc + sav;
    forall i | 0 <= i < |out|
      ensures |milk| <= i < |milk| + |gen| ==> out[i] == gen[i - |milk|]
      ensures i < |milk| ==> out[i] == milk[i]
      ensures i == |out| - 2 ==> out[i] == misc[0]
      ensures i == |out| - 1 ==> out[i] == sav[0]
    {
    }
    forall i | |milk| <= i < |milk| + |gen| ensures IsGeneral()(out[i]) {
      assert gen[i - |milk|] in gen;
    }
  }

  /** The layout of the rebuilt list over any board that holds both folders. */
  lemma BoardLayout(board: seq<Card>, collate: (string, string) -> bool)
    requires HasName(board, MiscName) && HasName(board, SavingsName)
    ensures var milk := Special(board, MilkName);
            var out := milk + General(board, collate) + Special(board, MiscName) + Special(board, SavingsName);
            && |out| >= 2
            && out[|milk|..|out| - 2] == General(board, collate)
            && CardName(out[|out| - 2]) == MiscName && CardName(out[|out| - 1]) == SavingsName
            && (forall i :: 0 <= i < |out| - 2 ==> CardName(out[i]) != MiscName && CardName(out[i]) != SavingsName)
            && (milk != [] <==> CardName(out[0]) == MilkName)
            && (forall i :: 0 < i < |out| ==> CardName(out[i]) != MilkName)
  {
    GeneralOnly(board, collate);
    Layout(Special(board, MilkName), General(board, collate), Special(board, MiscName), Special(board, SavingsName));
  }

  /** Miscellaneous and Savings are always the last two cards and appear nowhere else. */
  lemma FoldersLast(cats: seq<Category>, collate: (string, string) -> bool)
    ensures var out := DashboardList(cats, collate);
            && |out| >= 2
            && CardName(out[|out| - 2]) == MiscName && CardName(out[|out| - 1]) == SavingsName
            && (forall i :: 0 <= i < |out| - 2 ==> CardName(out[i]) != MiscName && CardName(out[i]) != SavingsName)
  {
    BoardLayout(Board(cats), collate);
  }

  /**
   * A Milk card comes first exactly when a visible category is named Milk,
   * and no second Milk card follows.
   */
  lemma MilkFirst(cats: seq<Category>, collate: (string, string) -> bool)
    ensures var out := DashboardList(cats, collate);
            && |out| >= 2
            && (HasMilk(cats) <==> CardName(out[0]) == MilkName)
            && (forall i :: 0 < i < |out| ==> CardName(out[i]) != MilkName)
  {
    BoardLayout(Board(cats), collate);
    BoardMilk(cats);
  }

  /**
   * Between the special cards sit the general cards of the board, a
   * permutation of them, in name order.
   */
  lemma GeneralSorted(cats: seq<Category>, collate: (string, string) -> bool)
    requires TotalPreorder(collate)
    ensures var out := DashboardList(cats, collate);
            var first := |Special(Board(cats), MilkName)|;
            && |out| >= first + 2
            && SortedBy(out[first..|out| - 2], ByName(collate))
            && multiset(out[first..|out| - 2]) == multiset(Filter(Board(cats), IsGeneral()))
  {
    var board := Board(cats);
    BoardLayout(board, collate);
    GeneralMembers(board, collate);
    ByNamePreorder(collate);
    SortBySorted(Filter(board, IsGeneral()), ByName(collate));
  }

  lemma GeneralOfBoard(cats: seq<Category>, collate: (string, string) -> bool)
    ensures forall x :: x in General(Board(cats), collate) <==>
              && x.Stored? && x.category in cats && OutsideFolders()(x.category)
              && x.category.name != MilkName && x.category.name != MiscName && x.category.name != SavingsName
  {
    GeneralMembers(Board(cats), collate);
    BoardMembers(cats);
  }

  /** The general cards shown are exactly the visible categories not named Milk, Miscellaneous or Savings. */
  lemma GeneralAreVisible(cats: seq<Category>, collate: (string, string) -> bool)
    ensures var out := DashboardList(cats, collate);
            var first := |Special(Board(cats), MilkName)|;
            && |out| >= first + 2
            && forall x :: x in out[first..|out| - 2] <==>
                 && x.Stored? && x.category in cats && OutsideFolders()(x.category)
                 && x.category.name != MilkName && x.category.name != MiscName && x.category.name != SavingsName
  {
    BoardLayout(Board(cats), collate);
    GeneralOfBoard(cats, collate);
  }

  /** No item of the Miscellaneous or Savings groups is shown; only the two folders are not stored categories. */
  lemma HidesGroupItems(cats: seq<Category>, collate: (string, string) -> bool)
    ensures forall x :: x in DashboardList(cats, collate) ==>
              || (x.Stored? && x.category in cats && OutsideFolders()(x.category))
              || x == Folder(MiscName) || x == Folder(SavingsName)
  {
    ListedFromBoard(Board(cats), collate);
    BoardMembers(cats);
  }

  /** Every card of the rebuilt list is a card of the board it was built from. */
  lemma ListedFromBoard(board: seq<Card>, collate: (string, string) -> bool)
    ensures var out := Special(board, MilkName) + General(board, collate) + Special(board, MiscName) + Special(board, SavingsName);
            forall x :: x in out ==> x in board
  {
    GeneralMembers(board, collate);
  }

  /** A folder card is added only for a group no item is named after. */
  lemma FolderOnlyWhenAbsent(cats: seq<Category>)
    ensures Folder(MiscName) in Board(cats) ==>
              forall c :: c in cats && OutsideFolders()(c) ==> c.name != MiscName
    ensures Folder(SavingsName) in Board(cats) ==>
              forall c :: c in cats && OutsideFolders()(c) ==> c.name != SavingsName
  {
    var visible := AsCards(Filter(cats, OutsideFolders()));
    var withMisc := PushFolder(visible, MiscName);
    var board := Board(cats);
    assert board == PushFolder(withMisc, SavingsName);
    assert Folder(MiscName) !in visible && Folder(SavingsName) !in visible;
    forall c | c in cats && OutsideFolders()(c) && c.name == MiscName ensures Folder(MiscName) !in board {
      var k :| 0 <= k < |Filter(cats, OutsideFolders())| && Filter(cats, OutsideFolders())[k] == c;
      assert CardName(visible[k]) == MiscName;
      assert withMisc == visible;
    }
    forall c | c in cats && OutsideFolders()(c) && c.name == SavingsName ensures Folder(SavingsName) !in board {
      var k :| 0 <= k < |Filter(cats, OutsideFolders())| && Filter(cats, OutsideFolders())[k] == c;
      assert CardName(withMisc[k]) == SavingsName;
      assert board == withMisc;
    }
  }
}
