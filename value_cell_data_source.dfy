/**
 * The per-section row store that the activity feed's data source inherits.
 *
 * The store keeps one ordered list of rows per section index. A row is either a
 * value paired with the cell class that renders it, or a static row (a spacer
 * cell known only by its reuse identifier, whose value is the unit value).
 * Writing to a section past the current end first pads the store with empty
 * sections, so a section that was never written holds no rows.
 */
module ValueCells {

  datatype Row<V, C> = ValueRow(value: V, cell: C) | StaticRow(identifier: string)

  function Max(a: nat, b: nat): nat { if a < b then b else a }

  /** The rows of one section as the table sees them: a missing section is empty. */
  function SectionRows<V, C>(values: seq<seq<Row<V, C>>>, section: nat): seq<Row<V, C>>
  {
    if section < |values| then values[section] else []
  }

  /** One row per value, all rendered by `cell`, in the order of `vs`. */
  function RowsOf<V, C>(vs: seq<V>, cell: C): (r: seq<Row<V, C>>)
    ensures |r| == |vs|
    ensures forall i :: 0 <= i < |vs| ==> r[i] == ValueRow(vs[i], cell)
  {
    if vs == [] then [] else [ValueRow(vs[0], cell)] + RowsOf(vs[1..], cell)
  }

  /** The store extended with empty sections until `section` is a valid index. */
  function Padded<V, C>(values: seq<seq<Row<V, C>>>, section: nat): (r: seq<seq<Row<V, C>>>)
    ensures |r| == Max(|values|, section + 1)
    ensures forall j :: 0 <= j < |r| ==> r[j] == SectionRows(values, j)
  {
    if section < |values| then values else values + seq(section + 1 - |values|, _ => [])
  }

  /** The store after `section` has been given the row list `rows`. */
  function WithSection<V, C>(values: seq<seq<Row<V, C>>>, section: nat, rows: seq<Row<V, C>>)
    : (r: seq<seq<Row<V, C>>>)
    ensures |r| == Max(|values|, section + 1)
    ensures SectionRows(r, section) == rows
    ensures forall j: nat :: j != section ==> SectionRows(r, j) == SectionRows(values, j)
  {
    Padded(values, section)[section := rows]
  }

  /** Writing a section twice leaves only the second write: the last call wins. */
  lemma LastWriteWins<V, C>(values: seq<seq<Row<V, C>>>, section: nat, first: seq<Row<V, C>>, second: seq<Row<V, C>>)
    ensures WithSection(WithSection(values, section, first), section, second) == WithSection(values, section, second)
  {
    var a := WithSection(WithSection(values, section, first), section, second);
    var b := WithSection(values, section, second);
    assert |a| == |b|;
    forall j | 0 <= j < |a| ensures a[j] == b[j] {
      assert a[j] == SectionRows(a, j) && b[j] == SectionRows(b, j);
    }
  }

  /** Writes to two different sections do not interfere: their order does not matter. */
  lemma WritesToDistinctSectionsCommute<V, C>(values: seq<seq<Row<V, C>>>, s: nat, t: nat, rs: seq<Row<V, C>>, rt: seq<Row<V, C>>)
    requires s != t
    ensures WithSection(WithSection(values, s, rs), t, rt) == WithSection(WithSection(values, t, rt), s, rs)
  {
    var a := WithSection(WithSection(values, s, rs), t, rt);
    var b := WithSection(WithSection(values, t, rt), s, rs);
    assert |a| == |b|;
    forall j | 0 <= j < |a| ensures a[j] == b[j] {
      assert a[j] == SectionRows(a, j) && b[j] == SectionRows(b, j);
    }
  }

  class ValueCellDataSource<V, C> {
    /** Row lists, indexed by section number. */
    var values: seq<seq<Row<V, C>>>

    constructor ()
      ensures values == []
    {
      values := [];
    }

    function Rows(section: nat): seq<Row<V, C>>
      reads this
    {
      SectionRows(values, section)
    }

    /** Replaces the rows of `section` by one row per value, all rendered by `cell`. */
    method Set(vs: seq<V>, cell: C, section: nat)
      modifies this
      ensures values == WithSection(old(values), section, RowsOf(vs, cell))
    {
      values := WithSection(values, section, RowsOf(vs, cell));
    }

    /** Adds one value row at the end of `section`. */
    method AppendRow(value: V, cell: C, section: nat)
      modifies this
      ensures values == WithSection(old(values), section, old(Rows(section)) + [ValueRow(value, cell)])
    {
      values := WithSection(values, section, Rows(section) + [ValueRow(value, cell)]);
    }

    /** Adds one static (spacer) row, known by its reuse identifier, at the end of `section`. */
    method AppendStaticRow(identifier: string, section: nat)
      modifies this
      ensures values == WithSection(old(values), section, old(Rows(section)) + [StaticRow(identifier)])
    {
      values := WithSection(values, section, Rows(section) + [StaticRow(identifier)]);
    }

    /** Empties `section`. */
    method ClearValues(section: nat)
      modifies this
      ensures values == WithSection(old(values), section, [])
    {
      values := WithSection(values, section, []);
    }
  }
}
