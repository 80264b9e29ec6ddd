/**
 * The fixed catalogue of tile categories (main.py, TILE_GROUT) and the two
 * things the calculation does with it: find the entry of the selected name,
 * and turn that entry's grout widths into one grout size in metres.
 */
module Catalogue {
  import opened Wrappers

  /** One catalogue entry: a display name and representative grout widths in millimetres. */
  datatype Category = Category(name: string, groutMm: seq<real>)

  /** The six categories, in the order they are offered for selection. */
  const TileGrout: seq<Category> := [
    Category("Ректифицированная плитка", [0.5, 1.0, 2.0]),
    Category("Неректифицированная плитка", [2.5, 5.0]),
    Category("Стеновая плитка", [1.0, 4.0, 7.0]),
    Category("Половая плитка", [2.5, 3.0]),
    Category("Большие размеры плитки", [2.5, 3.0]),
    Category("Плитка с компенсационными швами", [5.0, 10.0])
  ]

  /** An entry whose grout size is defined and positive: at least one width, all strictly positive. */
  predicate WellFormed(c: Category) {
    |c.groutMm| > 0 && forall k :: 0 <= k < |c.groutMm| ==> c.groutMm[k] > 0.0
  }

  /** The names offered in the selection menu, built from the catalogue itself. */
  function OfferedNames(): seq<string> {
    seq(|TileGrout|, i requires 0 <= i < |TileGrout| => TileGrout[i].name)
  }

  lemma CatalogueWellFormed()
    ensures |TileGrout| == 6
    ensures forall i :: 0 <= i < |TileGrout| ==> WellFormed(TileGrout[i])
    ensures forall i, j :: 0 <= i < j < |TileGrout| ==> TileGrout[i].name != TileGrout[j].name
  {
  }

  /** i is the position of the first entry of `table` called `name`. */
  predicate FirstMatch(table: seq<Category>, name: string, i: int) {
    0 <= i < |table| && table[i].name == name &&
    forall j :: 0 <= j < i ==> table[j].name != name
  }

  /**
   * The linear scan `next(tile for tile in table if tile[0] == name)`:
   * the position of the first match, or |table| when there is none.
   */
  function FindIndex(table: seq<Category>, name: string): (i: nat)
    ensures i <= |table|
    ensures i < |table| ==> FirstMatch(table, name, i)
    ensures i == |table| ==> forall j :: 0 <= j < |table| ==> table[j].name != name
  {
    if |table| == 0 then 0
    else if table[0].name == name then 0
    else 1 + FindIndex(table[1..], name)
  }

  /** The grout widths of the first entry called `name`, or None when the name is not in the table. */
  function Lookup(table: seq<Category>, name: string): (r: Option<seq<real>>)
    ensures r.None? <==> forall j :: 0 <= j < |table| ==> table[j].name != name
    ensures r.Some? ==> exists i :: FirstMatch(table, name, i) && r.value == table[i].groutMm
  {
    var i := FindIndex(table, name);
    if i < |table| then Some(table[i].groutMm) else None
  }

  /** Every name the menu offers is found, and yields the widths of its own entry. */
  lemma LookupOffered(i: int)
    requires 0 <= i < |OfferedNames()|
    ensures Lookup(TileGrout, OfferedNames()[i]) == Some(TileGrout[i].groutMm)
  {
    CatalogueWellFormed();
    var name := OfferedNames()[i];
    var r := Lookup(TileGrout, name);
    assert TileGrout[i].name == name;
    var k :| FirstMatch(TileGrout, name, k) && r.value == TileGrout[k].groutMm;
  }

  /** Python's sum() over the widths. */
  function Sum(ws: seq<real>): real {
    if ws == [] then 0.0 else ws[0] + Sum(ws[1..])
  }

  lemma {:induction false} SumBounds(ws: seq<real>, lo: real, hi: real)
    requires forall k :: 0 <= k < |ws| ==> lo <= ws[k] <= hi
    ensures |ws| as real * lo <= Sum(ws) <= |ws| as real * hi
  {
    if ws != [] {
      SumBounds(ws[1..], lo, hi);
    }
  }

  lemma {:induction false} SumPositive(ws: seq<real>)
    requires |ws| > 0
    requires forall k :: 0 <= k < |ws| ==> ws[k] > 0.0
    ensures Sum(ws) > 0.0
  {
    if |ws| > 1 {
      SumPositive(ws[1..]);
    }
  }

  /** The mean grout width, converted from millimetres to metres. */
  function GroutSize(ws: seq<real>): real
    requires |ws| > 0
  {
    Sum(ws) / (|ws| as real) / 1000.0
  }

  /** The grout size lies between the smallest and largest width, in metres. */
  lemma GroutSizeBounds(ws: seq<real>, lo: real, hi: real)
    requires |ws| > 0
    requires forall k :: 0 <= k < |ws| ==> lo <= ws[k] <= hi
    ensures lo / 1000.0 <= GroutSize(ws) <= hi / 1000.0
  {
    SumBounds(ws, lo, hi);
    var n := |ws| as real;
    assert lo <= Sum(ws) / n <= hi by {
      assert n * lo <= Sum(ws) <= n * hi;
    }
  }

  /** A well-formed entry has a strictly positive grout size. */
  lemma GroutSizePositive(c: Category)
    requires WellFormed(c)
    ensures GroutSize(c.groutMm) > 0.0
  {
    SumPositive(c.groutMm);
  }

  /** Every entry of the catalogue has a grout size, and it is strictly positive. */
  lemma CatalogueGroutPositive(i: int)
    requires 0 <= i < |TileGrout|
    ensures |TileGrout[i].groutMm| > 0 && GroutSize(TileGrout[i].groutMm) > 0.0
  {
    CatalogueWellFormed();
    GroutSizePositive(TileGrout[i]);
  }

  /** Whatever name is found, the widths it yields have a strictly positive grout size. */
  lemma LookupGroutPositive(name: string)
    requires Lookup(TileGrout, name).Some?
    ensures |Lookup(TileGrout, name).value| > 0
    ensures GroutSize(Lookup(TileGrout, name).value) > 0.0
  {
    CatalogueGroutPositive(FindIndex(TileGrout, name));
  }
}
