/** The list of plotted functions on both graphing pages: adding an empty
    entry, editing, showing/hiding and removing entries by id. */
module FunctionList {
  import opened Palette

  /** One row of the function list; `colorIndex` indexes the ten-colour palette. */
  datatype FnEntry = FnEntry(id: int, expression: string, visible: bool, colorIndex: int)

  /** Some entry carries `id`. */
  predicate HasId(fs: seq<FnEntry>, id: int) {
    exists i :: 0 <= i < |fs| && fs[i].id == id
  }

  /** `Math.max(0, ...ids)`. */
  function MaxId(fs: seq<FnEntry>): (m: int)
    ensures m >= 0
    ensures forall i :: 0 <= i < |fs| ==> fs[i].id <= m
    ensures m == 0 || HasId(fs, m)
  {
    if |fs| == 0 then 0
    else
      var rest := MaxId(fs[1..]);
      if fs[0].id > rest then fs[0].id else
        assert forall i :: 1 <= i < |fs| ==> fs[i] == fs[1..][i - 1];
        rest
  }

  /** The empty, visible entry the "add" button appends. */
  function EmptyEntry(fs: seq<FnEntry>, id: int): (e: FnEntry)
    ensures e.id == id && e.expression == [] && e.visible
    ensures e.colorIndex == ColorFor(|fs|)
  {
    FnEntry(id, [], true, ColorFor(|fs|))
  }

  /** Math.jsx `addFunction`: append an empty entry whose id is one more than
      the largest existing id (and at least 1). */
  function AddFunction(fs: seq<FnEntry>): (r: seq<FnEntry>)
    ensures |r| == |fs| + 1 && r[..|fs|] == fs
    ensures r[|fs|].expression == [] && r[|fs|].visible
    ensures r[|fs|].id >= 1 && !HasId(fs, r[|fs|].id)
    ensures forall i :: 0 <= i < |fs| ==> fs[i].id < r[|fs|].id
  {
    fs + [EmptyEntry(fs, MaxId(fs) + 1)]
  }

  /** MathNew.jsx `addFunction`: append an empty entry with the id the caller
      draws from the page's shared counter. */
  function AppendEmpty(fs: seq<FnEntry>, id: int): (r: seq<FnEntry>)
    ensures |r| == |fs| + 1 && r[..|fs|] == fs
    ensures r[|fs|].id == id && r[|fs|].expression == [] && r[|fs|].visible
  {
    fs + [EmptyEntry(fs, id)]
  }

  /** `updateFunction` (Math.jsx; MathNew.jsx once the text is rewritten):
      every entry with the id gets the new text. */
  function SetExpression(fs: seq<FnEntry>, id: int, e: string): (r: seq<FnEntry>)
    ensures |r| == |fs|
    ensures forall i :: 0 <= i < |fs| ==>
      && r[i].id == fs[i].id && r[i].visible == fs[i].visible
      && r[i].colorIndex == fs[i].colorIndex
    ensures forall i :: 0 <= i < |fs| && fs[i].id == id ==> r[i].expression == e
    ensures forall i :: 0 <= i < |fs| && fs[i].id != id ==> r[i] == fs[i]
  {
    seq(|fs|, i requires 0 <= i < |fs| =>
      if fs[i].id == id then fs[i].(expression := e) else fs[i])
  }

  /** `toggleFunction`: flip visibility of the entries with the id. */
  function Toggle(fs: seq<FnEntry>, id: int): (r: seq<FnEntry>)
    ensures |r| == |fs|
    ensures forall i :: 0 <= i < |fs| ==>
      && r[i].id == fs[i].id && r[i].expression == fs[i].expression
      && r[i].colorIndex == fs[i].colorIndex
    ensures forall i :: 0 <= i < |fs| ==> (r[i].visible != fs[i].visible <==> fs[i].id == id)
  {
    seq(|fs|, i requires 0 <= i < |fs| =>
      if fs[i].id == id then fs[i].(visible := !fs[i].visible) else fs[i])
  }

  /** `removeFunction`: keep, in order, exactly the entries with another id. */
  function Remove(fs: seq<FnEntry>, id: int): (r: seq<FnEntry>)
    ensures |r| <= |fs|
    ensures !HasId(r, id)
    ensures !HasId(fs, id) ==> r == fs
  {
    if |fs| == 0 then []
    else
      var rest := Remove(fs[1..], id);
      assert !HasId(fs, id) ==> !HasId(fs[1..], id) by {
        if HasId(fs[1..], id) {
          var i :| 0 <= i < |fs[1..]| && fs[1..][i].id == id;
          assert fs[i + 1].id == id;
        }
      }
      if fs[0].id == id then rest else [fs[0]] + rest
  }

  /** The entries kept are exactly those with another id. */
  lemma {:induction false} RemoveMembers(fs: seq<FnEntry>, id: int)
    ensures forall f :: f in Remove(fs, id) <==> f in fs && f.id != id
    decreases |fs|
  {
    if |fs| > 0 {
      RemoveMembers(fs[1..], id);
      assert forall f :: f in fs <==> f == fs[0] || f in fs[1..];
    }
  }

  /** A single entry is kept exactly when its id differs. */
  lemma RemoveSingle(f: FnEntry, id: int)
    ensures Remove([f], id) == if f.id == id then [] else [f]
  {
    assert [f][1..] == [];
  }

  /** Removing distributes over concatenation. With `RemoveSingle` this
      pins `Remove` down as an order-keeping filter. */
  lemma {:induction false} RemoveConcat(a: seq<FnEntry>, b: seq<FnEntry>, id: int)
    ensures Remove(a + b, id) == Remove(a, id) + Remove(b, id)
    decreases |a|
  {
    if |a| == 0 {
      assert a + b == b;
    } else {
      assert (a + b)[0] == a[0];
      assert (a + b)[1..] == a[1..] + b;
      RemoveConcat(a[1..], b, id);
    }
  }

  /** Toggling twice restores the list. */
  lemma ToggleTwice(fs: seq<FnEntry>, id: int)
    ensures Toggle(Toggle(fs, id), id) == fs
  {
    var once := Toggle(fs, id);
    var twice := Toggle(once, id);
    assert forall i :: 0 <= i < |fs| ==> twice[i] == fs[i];
  }

  /** The last edit of an entry wins: an earlier edit leaves no trace. */
  lemma SetExpressionLastWins(fs: seq<FnEntry>, id: int, e1: string, e2: string)
    ensures SetExpression(SetExpression(fs, id, e1), id, e2) == SetExpression(fs, id, e2)
  {
    var a := SetExpression(SetExpression(fs, id, e1), id, e2);
    var b := SetExpression(fs, id, e2);
    assert forall i :: 0 <= i < |fs| ==> a[i] == b[i];
  }

  /** Removing the entry that was just added undoes the addition. */
  lemma {:induction false} RemoveUndoesAdd(fs: seq<FnEntry>)
    ensures var r := AddFunction(fs);
            Remove(r, r[|fs|].id) == fs
  {
    var r := AddFunction(fs);
    RemoveAppended(fs, r[|fs|]);
  }

  /** Removing a fresh id appended at the end gives back the original list. */
  lemma {:induction false} RemoveAppended(fs: seq<FnEntry>, e: FnEntry)
    requires !HasId(fs, e.id)
    ensures Remove(fs + [e], e.id) == fs
    decreases |fs|
  {
    if |fs| == 0 {
      assert fs + [e] == [e];
      assert [e][1..] == [];
    } else {
      assert (fs + [e])[1..] == fs[1..] + [e];
      RemoveAppended(fs[1..], e);
      assert fs[0].id != e.id;
      assert [fs[0]] + fs[1..] == fs;
    }
  }
}
