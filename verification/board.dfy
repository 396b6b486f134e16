/** The geometry board's state (MathNew.jsx): its points, its function
    rows, and the single id counter both draw from. Every operation keeps
    ids unique and below the counter. */
module Board {
  import opened Wrappers
  import opened JsText
  import opened Viewport
  import opened Geometry
  import opened FunctionList
  import opened Notation
  import opened Palette

  datatype Board = Board(objects: seq<GeoPoint>, functions: seq<FnEntry>, nextId: int)

  /** The page's starting state: nothing on the board, counter at 1. */
  const Initial := Board([], [], 1)

  predicate DistinctPointIds(objs: seq<GeoPoint>) {
    forall i, j :: 0 <= i < j < |objs| ==> objs[i].id != objs[j].id
  }

  predicate DistinctFnIds(fs: seq<FnEntry>) {
    forall i, j :: 0 <= i < j < |fs| ==> fs[i].id != fs[j].id
  }

  /** Every id in use was drawn from the counter, and ids are unique. */
  predicate Valid(b: Board) {
    && (forall i :: 0 <= i < |b.objects| ==> b.objects[i].id < b.nextId)
    && (forall i :: 0 <= i < |b.functions| ==> b.functions[i].id < b.nextId)
    && DistinctPointIds(b.objects)
    && DistinctFnIds(b.functions)
  }

  lemma InitialValid()
    ensures Valid(Initial)
  {
  }

  /** A click in point mode: a new point with the next id. */
  function ClickPoint(b: Board, canvas: Option<Canvas>, v: View, snapOn: bool,
                      px: real, py: real): (r: Board)
    requires v.scale > 0.0
    requires Valid(b)
    ensures Valid(r)
    ensures r.functions == b.functions && r.nextId == b.nextId + 1
    ensures |r.objects| == |b.objects| + 1 && r.objects[..|b.objects|] == b.objects
    ensures r.objects[|b.objects|] == NewPoint(b.objects, b.nextId, canvas, v, snapOn, px, py)
  {
    var p := NewPoint(b.objects, b.nextId, canvas, v, snapOn, px, py);
    Board(b.objects + [p], b.functions, b.nextId + 1)
  }

  /** The "add function" button: an empty row with the next id. */
  function AddRow(b: Board): (r: Board)
    requires Valid(b)
    ensures Valid(r)
    ensures r.objects == b.objects && r.nextId == b.nextId + 1
    ensures r.functions == AppendEmpty(b.functions, b.nextId)
  {
    Board(b.objects, AppendEmpty(b.functions, b.nextId), b.nextId + 1)
  }

  /** The first point whose label is the given code unit. */
  function FindLabel(objs: seq<GeoPoint>, code: int): (r: Option<nat>)
    ensures r.Some? ==> r.value < |objs| && objs[r.value].labelCode == code
    ensures r.Some? ==> forall j :: 0 <= j < r.value ==> objs[j].labelCode != code
    ensures r.None? <==> forall j :: 0 <= j < |objs| ==> objs[j].labelCode != code
  {
    if |objs| == 0 then None
    else if objs[0].labelCode == code then Some(0)
    else match FindLabel(objs[1..], code)
      case None => None
      case Some(i) => Some(i + 1)
  }

  /** Some point carries the notation's label at the notation's coordinates. */
  predicate Placed(objs: seq<GeoPoint>, spec: PointSpec) {
    exists k :: 0 <= k < |objs| && objs[k].labelCode == spec.labelChar as int
                && objs[k].x == spec.x && objs[k].y == spec.y
  }

  /** Point notation's effect on the points: move the point with that label,
      or append a new visible one with the next id. */
  function UpsertPoint(b: Board, spec: PointSpec): (r: Board)
    requires Valid(b)
    ensures Valid(r) && r.functions == b.functions
    ensures Placed(r.objects, spec)
    ensures var code := spec.labelChar as int;
      match FindLabel(b.objects, code)
      case Some(k) =>
        && r.nextId == b.nextId && |r.objects| == |b.objects|
        && r.objects[k] == b.objects[k].(x := spec.x, y := spec.y)
        && forall j :: 0 <= j < |b.objects| && j != k ==> r.objects[j] == b.objects[j]
      case None =>
        && r.nextId == b.nextId + 1
        && r.objects == b.objects + [GeoPoint(b.nextId, spec.x, spec.y, code,
                                              ColorFor(PointCount(b.objects)), true)]
  {
    var code := spec.labelChar as int;
    match FindLabel(b.objects, code)
    case Some(k) =>
      var target := b.objects[k].id;
      var objs := seq(|b.objects|, j requires 0 <= j < |b.objects| =>
        if b.objects[j].id == target then b.objects[j].(x := spec.x, y := spec.y) else b.objects[j]);
      assert objs[k].labelCode == code;
      b.(objects := objs)
    case None =>
      var p := GeoPoint(b.nextId, spec.x, spec.y, code, ColorFor(PointCount(b.objects)), true);
      var objs := b.objects + [p];
      assert objs[|b.objects|] == p;
      b.(objects := objs, nextId := b.nextId + 1)
  }

  /** Point notation's effect on the rows: drop the row that held it, then
      append an empty row with the next id when the list is empty or ends
      with a non-blank row. */
  function RetireRow(b: Board, id: int): (r: Board)
    requires Valid(b)
    ensures Valid(r) && r.objects == b.objects
    ensures var kept := Remove(b.functions, id);
      if |kept| == 0 || !Blank(kept[|kept| - 1].expression) then
        r.functions == AppendEmpty(kept, b.nextId) && r.nextId == b.nextId + 1
      else
        r.functions == kept && r.nextId == b.nextId
    ensures |r.functions| > 0 && Blank(r.functions[|r.functions| - 1].expression)
  {
    var d := RemoveRow(b, id);
    if |d.functions| == 0 || !Blank(d.functions[|d.functions| - 1].expression) then
      var a := AddRow(d);
      assert Blank(a.functions[|a.functions| - 1].expression);
      a
    else d
  }

  /** `updateFunction` on the geometry board: point notation places a point
      and retires the row; any other text is stored in the row, with shape
      shortcuts expanded. */
  function UpdateRow(b: Board, id: int, text: string): (r: Board)
    requires Valid(b)
    ensures Valid(r)
    ensures ParsePoint(text).None? ==>
      r == b.(functions := SetExpression(b.functions, id, Rewrite(text)))
    ensures ParsePoint(text).Some? ==> !HasId(r.functions, id) || id >= b.nextId
    ensures ParsePoint(text).Some? ==> Placed(r.objects, ParsePoint(text).value)
    ensures ParsePoint(text).Some? ==> r == RetireRow(UpsertPoint(b, ParsePoint(text).value), id)
  {
    match ParsePoint(text)
    case Some(spec) => RetireRow(UpsertPoint(b, spec), id)
    case None => b.(functions := SetExpression(b.functions, id, Rewrite(text)))
  }

  /** `UpsertPoint` leaves every point with another label alone and adds at
      most one point, drawing its id from the counter. */
  lemma UpsertFrame(b: Board, spec: PointSpec)
    requires Valid(b)
    ensures var u := UpsertPoint(b, spec);
            var code := spec.labelChar as int;
      && u.functions == b.functions
      && |b.objects| <= |u.objects| <= |b.objects| + 1
      && (forall j :: 0 <= j < |b.objects| && b.objects[j].labelCode != code ==>
            u.objects[j] == b.objects[j])
      && (|u.objects| == |b.objects| + 1 ==>
            u.objects[|b.objects|].id == b.nextId && FindLabel(b.objects, code).None?)
      && u.nextId == b.nextId + (|u.objects| - |b.objects|)
  {
    var code := spec.labelChar as int;
    var u := UpsertPoint(b, spec);
    match FindLabel(b.objects, code)
    case Some(k) =>
      assert |u.objects| == |b.objects| && u.nextId == b.nextId;
    case None =>
      assert u.objects[|b.objects|].id == b.nextId;
  }

  /** `RetireRow` keeps the other rows in order and follows them with at most
      one new row, drawing its id from the counter, so that the list ends blank. */
  lemma RetireFrame(u: Board, id: int)
    requires Valid(u)
    ensures var r := RetireRow(u, id);
            var kept := Remove(u.functions, id);
      && r.objects == u.objects
      && |kept| <= |r.functions| <= |kept| + 1
      && r.functions[..|kept|] == kept
      && Blank(r.functions[|r.functions| - 1].expression)
      && r.nextId == u.nextId + (|r.functions| - |kept|)
  {
    var r := RetireRow(u, id);
    var kept := Remove(u.functions, id);
    if |kept| == 0 || !Blank(kept[|kept| - 1].expression) {
      assert r.functions == AppendEmpty(kept, u.nextId);
    } else {
      assert r.functions == kept;
    }
  }

  /** What point notation leaves alone: every point with another label is
      unchanged and at most one point is added; the other rows keep their
      order and are followed by at most one new row, so that the list ends
      with a blank row; the counter advances once for a new point and once
      for a new row. */
  lemma PointNotationFrame(b: Board, id: int, text: string)
    requires Valid(b) && ParsePoint(text).Some?
    ensures var r := UpdateRow(b, id, text);
            var code := ParsePoint(text).value.labelChar as int;
            var kept := Remove(b.functions, id);
      && |b.objects| <= |r.objects| <= |b.objects| + 1
      && (forall j :: 0 <= j < |b.objects| && b.objects[j].labelCode != code ==>
            r.objects[j] == b.objects[j])
      && (|r.objects| == |b.objects| + 1 ==>
            r.objects[|b.objects|].id == b.nextId && FindLabel(b.objects, code).None?)
      && |kept| <= |r.functions| <= |kept| + 1
      && r.functions[..|kept|] == kept
      && Blank(r.functions[|r.functions| - 1].expression)
      && r.nextId == b.nextId + (|r.objects| - |b.objects|) + (|r.functions| - |kept|)
  {
    var spec := ParsePoint(text).value;
    var u := UpsertPoint(b, spec);
    UpsertFrame(b, spec);
    RetireFrame(u, id);
  }

  /** `toggleFunction` on the geometry board. */
  function ToggleRow(b: Board, id: int): (r: Board)
    requires Valid(b)
    ensures Valid(r)
    ensures r.objects == b.objects && r.nextId == b.nextId
    ensures r.functions == Toggle(b.functions, id)
  {
    b.(functions := Toggle(b.functions, id))
  }

  /** `removeFunction` on the geometry board. */
  function RemoveRow(b: Board, id: int): (r: Board)
    requires Valid(b)
    ensures Valid(r)
    ensures r.objects == b.objects && r.nextId == b.nextId
    ensures r.functions == Remove(b.functions, id)
  {
    var kept := Remove(b.functions, id);
    RemoveKeepsDistinct(b.functions, id);
    RemoveMembers(b.functions, id);
    forall i | 0 <= i < |kept|
      ensures kept[i].id < b.nextId
    {
      assert kept[i] in b.functions;
    }
    b.(functions := kept)
  }

  /** Dragging a point on the geometry board. */
  function DragOnBoard(b: Board, id: int, canvas: Option<Canvas>, v: View, snapOn: bool,
                       px: real, py: real): (r: Board)
    requires v.scale > 0.0
    requires Valid(b)
    ensures Valid(r)
    ensures r.functions == b.functions && r.nextId == b.nextId
    ensures r.objects == DragPoint(b.objects, id, canvas, v, snapOn, px, py)
  {
    b.(objects := DragPoint(b.objects, id, canvas, v, snapOn, px, py))
  }

  /** Everything the user can do to the board's points and rows. */
  datatype BoardOp =
    | ClickOp(px: real, py: real)
    | AddRowOp
    | UpdateOp(id: int, text: string)
    | ToggleOp(id: int)
    | RemoveOp(id: int)
    | DragOp(id: int, px: real, py: real)

  function Step(b: Board, canvas: Option<Canvas>, v: View, snapOn: bool, op: BoardOp): (r: Board)
    requires v.scale > 0.0 && Valid(b)
    ensures Valid(r)
  {
    match op
    case ClickOp(px, py) => ClickPoint(b, canvas, v, snapOn, px, py)
    case AddRowOp => AddRow(b)
    case UpdateOp(id, text) => UpdateRow(b, id, text)
    case ToggleOp(id) => ToggleRow(b, id)
    case RemoveOp(id) => RemoveRow(b, id)
    case DragOp(id, px, py) => DragOnBoard(b, id, canvas, v, snapOn, px, py)
  }

  /** A session of board operations, applied left to right. */
  function Run(b: Board, canvas: Option<Canvas>, v: View, snapOn: bool, ops: seq<BoardOp>): (r: Board)
    requires v.scale > 0.0 && Valid(b)
    ensures Valid(r)
    ensures r.nextId >= b.nextId
    decreases |ops|
  {
    if |ops| == 0 then b
    else Run(Step(b, canvas, v, snapOn, ops[0]), canvas, v, snapOn, ops[1..])
  }

  /** From the empty board, no session ever produces two points or two rows
      with the same id. */
  lemma {:induction false} SessionKeepsIdsUnique(canvas: Option<Canvas>, v: View, snapOn: bool, ops: seq<BoardOp>)
    requires v.scale > 0.0
    ensures var r := Run(Initial, canvas, v, snapOn, ops);
            DistinctPointIds(r.objects) && DistinctFnIds(r.functions)
  {
    InitialValid();
  }

  /** Removing rows keeps the remaining ids distinct. */
  lemma {:induction false} RemoveKeepsDistinct(fs: seq<FnEntry>, id: int)
    requires DistinctFnIds(fs)
    ensures DistinctFnIds(Remove(fs, id))
    decreases |fs|
  {
    if |fs| > 0 {
      var rest := Remove(fs[1..], id);
      RemoveKeepsDistinct(fs[1..], id);
      RemoveMembers(fs[1..], id);
      if fs[0].id != id {
        assert forall f :: f in rest ==> f in fs[1..];
        forall j | 0 <= j < |rest|
          ensures rest[j].id != fs[0].id
        {
          assert rest[j] in fs[1..];
        }
      }
    }
  }
}
