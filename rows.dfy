/** The pure string builders over a parsed CSV row: `transformRow` (the
    address sent to the geocoder and shown as an example), `printObj` and
    the line a failed row is shown with. */
module Rows {
  import opened Strings

  /** A row as `d3.entries` lists it: (key, value) pairs in the row's own
      enumeration order. */
  type Row = seq<(string, string)>

  /** The values of the entries whose key is one of `fields`, in row order:
      the `filter` and `map` of `transformRow`. */
  function Selected(fields: seq<string>, row: Row): (vals: seq<string>)
    ensures |vals| <= |row|
    decreases |row|
  {
    if row == [] then []
    else (if row[0].0 in fields then [row[0].1] else []) + Selected(fields, row[1..])
  }

  /** `transformRow(fields)(row)`. */
  function TransformRow(fields: seq<string>, row: Row): string
  {
    Join(", ", Selected(fields, row))
  }

  lemma {:induction false} SelectedAppend(fields: seq<string>, a: Row, b: Row)
    ensures Selected(fields, a + b) == Selected(fields, a) + Selected(fields, b)
    decreases |a|
  {
    if a == [] {
      assert a + b == b;
    } else {
      assert (a + b)[0] == a[0];
      assert (a + b)[1..] == a[1..] + b;
      SelectedAppend(fields, a[1..], b);
    }
  }

  /** An entry whose key is selected contributes its value at the position
      given by the number of values selected before it; so the values come
      out in the row's order. */
  lemma SelectedAt(fields: seq<string>, row: Row, i: nat)
    requires i < |row| && row[i].0 in fields
    ensures |Selected(fields, row[..i])| < |Selected(fields, row)|
    ensures Selected(fields, row)[|Selected(fields, row[..i])|] == row[i].1
  {
    assert row == row[..i] + row[i..];
    SelectedAppend(fields, row[..i], row[i..]);
    assert row[i..][0] == row[i];
  }

  /** Of two selected entries, the earlier one's value comes first, whatever
      the order of `fields`. */
  lemma {:induction false} SelectedKeepsRowOrder(fields: seq<string>, row: Row, i: nat, j: nat)
    requires i < j < |row| && row[i].0 in fields && row[j].0 in fields
    ensures |Selected(fields, row[..i])| < |Selected(fields, row[..j])|
  {
    assert row[..j] == row[..i] + row[i..j];
    SelectedAppend(fields, row[..i], row[i..j]);
    assert row[i..j] == [row[i]] + row[i + 1..j];
    SelectedAppend(fields, [row[i]], row[i + 1..j]);
    assert Selected(fields, [row[i]]) == [row[i].1] by {
      assert [row[i]][1..] == [];
    }
  }

  /** The converse of `SelectedAt`: the value at position `k` of the address
      is the value of the selected entry that has exactly `k` selected
      entries before it. Together the two say the address holds one value
      per selected entry, in row order, and nothing else. */
  lemma {:induction false} SelectedValuesComeFromFields(fields: seq<string>, row: Row, k: nat)
    requires k < |Selected(fields, row)|
    ensures exists i :: (0 <= i < |row| && row[i].0 in fields
      && |Selected(fields, row[..i])| == k && row[i].1 == Selected(fields, row)[k])
    decreases |row|
  {
    if row[0].0 in fields && k == 0 {
      assert row[..0] == [];
    } else {
      var k' := if row[0].0 in fields then k - 1 else k;
      SelectedValuesComeFromFields(fields, row[1..], k');
      var i :| 0 <= i < |row[1..]| && row[1..][i].0 in fields
        && |Selected(fields, row[1..][..i])| == k' && row[1..][i].1 == Selected(fields, row[1..])[k'];
      var pre := row[..i + 1];
      assert pre[0] == row[0] && pre[1..] == row[1..][..i];
      assert row[i + 1] == row[1..][i];
    }
  }

  /** Only the set of fields matters, not their order or repetition. */
  lemma {:induction false} SelectedIgnoresFieldOrder(f1: seq<string>, f2: seq<string>, row: Row)
    requires forall k :: k in f1 <==> k in f2
    ensures Selected(f1, row) == Selected(f2, row)
    ensures TransformRow(f1, row) == TransformRow(f2, row)
    decreases |row|
  {
    if row != [] {
      SelectedIgnoresFieldOrder(f1, f2, row[1..]);
    }
  }

  /** No fields select nothing: the address is empty. */
  lemma {:induction false} NoFieldsNoAddress(row: Row)
    ensures Selected([], row) == []
    ensures TransformRow([], row) == ""
    decreases |row|
  {
    if row != [] {
      NoFieldsNoAddress(row[1..]);
    }
  }

  /** Selecting every key yields every value. */
  lemma {:induction false} AllFieldsAllValues(fields: seq<string>, row: Row)
    requires forall i :: 0 <= i < |row| ==> row[i].0 in fields
    ensures |Selected(fields, row)| == |row|
    ensures forall i :: 0 <= i < |row| ==> Selected(fields, row)[i] == row[i].1
    decreases |row|
  {
    if row != [] {
      AllFieldsAllValues(fields, row[1..]);
    }
  }

  /** The address of a Reno row, whichever order its three fields were chosen in. */
  lemma RenoAddress(fields: seq<string>)
    requires forall k :: k in fields <==> k in ["City", "State", "Zip"]
    ensures TransformRow(fields, [("City", "Reno"), ("State", "NV"), ("Zip", "89501")]) == "Reno, NV, 89501"
  {
    var row := [("City", "Reno"), ("State", "NV"), ("Zip", "89501")];
    SelectedIgnoresFieldOrder(fields, ["City", "State", "Zip"], row);
    AllFieldsAllValues(["City", "State", "Zip"], row);
    var vals := Selected(["City", "State", "Zip"], row);
    assert vals == ["Reno", "NV", "89501"];
    assert vals[1..][1..] == ["89501"];
  }

  // ---- the failure line ----

  /** The `key: value` strings `printObj` joins. */
  function Entries(row: Row): (r: seq<string>)
    ensures |r| == |row|
    ensures forall i :: 0 <= i < |row| ==> r[i] == row[i].0 + ": " + row[i].1
  {
    seq(|row|, i requires 0 <= i < |row| => row[i].0 + ": " + row[i].1)
  }

  /** `printObj(row)`: the entries joined by `,` inside parentheses. */
  function PrintObj(row: Row): string
  {
    "(" + Join(",", Entries(row)) + ")"
  }

  /** The text of a failed row: `'failed: ' + transform(row) + ' / ' + printObj(row)`. */
  function FailLine(fields: seq<string>, row: Row): string
  {
    "failed: " + TransformRow(fields, row) + " / " + PrintObj(row)
  }

  /** The lines `done` shows, one per failed row, in order. */
  function FailLines(fields: seq<string>, failed: seq<Row>): (lines: seq<string>)
    ensures |lines| == |failed|
    ensures forall i :: 0 <= i < |failed| ==> lines[i] == FailLine(fields, failed[i])
  {
    seq(|failed|, i requires 0 <= i < |failed| => FailLine(fields, failed[i]))
  }

  /** The inside of `printObj`'s parentheses splits back into the row's
      `key: value` strings when no key or value holds a comma. */
  lemma PrintObjRecoversEntries(row: Row)
    requires |row| > 0
    requires forall i :: 0 <= i < |row| ==> ',' !in row[i].0 && ',' !in row[i].1
    ensures |PrintObj(row)| >= 2 && PrintObj(row)[0] == '(' && PrintObj(row)[|PrintObj(row)| - 1] == ')'
    ensures Split(PrintObj(row)[1..|PrintObj(row)| - 1], ',') == Entries(row)
  {
    var es := Entries(row);
    forall k | 0 <= k < |es|
      ensures ',' !in es[k]
    {
      assert es[k] == row[k].0 + ": " + row[k].1;
    }
    SplitJoin(es, ',');
    assert PrintObj(row)[1..|PrintObj(row)| - 1] == Join(",", es);
  }

  /** A failure line carries the address between its prefix and ` / `, and
      ends with the row's entries. */
  lemma FailLineLayout(fields: seq<string>, row: Row)
    ensures var line := FailLine(fields, row); var a := TransformRow(fields, row);
      && |line| == 8 + |a| + 3 + |PrintObj(row)|
      && line[..8] == "failed: "
      && line[8..8 + |a|] == a
      && line[8 + |a|..11 + |a|] == " / "
      && line[11 + |a|..] == PrintObj(row)
  {
  }

  /** Every line `done` shows has the layout of a fail line: `failed: `, the
      row's address, ` / `, then `printObj` of the row. */
  lemma FailLinesLayout(fields: seq<string>, failed: seq<Row>)
    ensures |FailLines(fields, failed)| == |failed|
    ensures forall i :: 0 <= i < |failed| ==>
      var line := FailLines(fields, failed)[i]; var a := TransformRow(fields, failed[i]);
      && |line| == 11 + |a| + |PrintObj(failed[i])|
      && line[..8] == "failed: "
      && line[8..8 + |a|] == a
      && line[8 + |a|..11 + |a|] == " / "
      && line[11 + |a|..] == PrintObj(failed[i])
  {
    forall i | 0 <= i < |failed|
      ensures var line := FailLines(fields, failed)[i]; var a := TransformRow(fields, failed[i]);
        && |line| == 11 + |a| + |PrintObj(failed[i])|
        && line[..8] == "failed: "
        && line[8..8 + |a|] == a
        && line[8 + |a|..11 + |a|] == " / "
        && line[11 + |a|..] == PrintObj(failed[i])
    {
      FailLineLayout(fields, failed[i]);
    }
  }
}
