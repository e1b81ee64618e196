/** The Blender tools add-on: the parametric surface's vertex and face lists, and the
    registration of the add-on's classes. The surface height sin(0.3x)·cos(0.3y) is
    left abstract, as a function of the grid position. */
module BlenderTools {

  /** A mesh vertex: grid position and height. */
  datatype Vertex = Vertex(x: int, y: int, z: real)

  /** A quad face: four vertex indices. */
  datatype Face = Face(a: int, b: int, c: int, d: int)

  /** `range(size)` is empty for a size below one. */
  function Side(size: int): nat {
    if size < 0 then 0 else size
  }

  /** `range(size - 1)` per axis for faces. */
  function FaceSide(size: int): nat {
    if size < 1 then 0 else size - 1
  }

  /** The quad whose first corner is vertex (x, y): (x,y), (x,y+1), (x+1,y+1), (x+1,y). */
  function FaceAt(x: int, y: int, n: int): Face {
    var i := x * n + y;
    Face(i, i + 1, i + n + 1, i + n)
  }

  predicate InRange(f: Face, count: int) {
    0 <= f.a < count && 0 <= f.b < count && 0 <= f.c < count && 0 <= f.d < count
  }

  /** Row-major indices below a row come before it. */
  lemma RowBelow(x': int, y': int, x: int, n: int)
    requires 0 <= x' < x && 0 <= y' < n
    ensures x' * n + y' < x * n
  {
    assert (x' + 1) * n <= x * n by {
      var d := x - (x' + 1);
      assert x * n == (x' + 1) * n + d * n;
    }
  }

  /** The corners of cell (x, y) with x, y <= n-2 are vertex indices. */
  lemma CellInRange(x: int, y: int, n: int)
    requires 0 <= x < n - 1 && 0 <= y < n - 1
    ensures InRange(FaceAt(x, y, n), n * n)
  {
    RowBelow(x, y + n + 1 - n, x + 1, n);
    assert (x + 1) * n + (y + 1) < n * n by {
      RowBelow(x + 1, y + 1, n, n);
    }
  }

  /** Row x of a grid with `cols` columns: cell(x, 0), ..., cell(x, cols-1). */
  function GridRow<T>(cols: nat, cell: (int, int) -> T, x: int): (r: seq<T>)
    ensures |r| == cols && forall y :: 0 <= y < cols ==> r[y] == cell(x, y)
  {
    seq(cols, y requires 0 <= y < cols => cell(x, y))
  }

  /** The first `rows` rows of a grid, row after row: the list two nested loops
      `for x: for y: append(cell(x, y))` build. */
  function Grid<T>(cols: nat, cell: (int, int) -> T, rows: nat): seq<T> {
    if rows == 0 then [] else Grid(cols, cell, rows - 1) + GridRow(cols, cell, rows - 1)
  }

  /** A grid of `rows` rows has rows·cols cells. */
  lemma {:induction false} GridSize<T>(cols: nat, cell: (int, int) -> T, rows: nat)
    ensures |Grid(cols, cell, rows)| == rows * cols
    decreases rows
  {
    if rows > 0 {
      GridSize(cols, cell, rows - 1);
      assert rows * cols == (rows - 1) * cols + cols;
    }
  }

  /** Cell (x, y) of a grid sits at index x·cols+y. */
  lemma {:induction false} GridCell<T>(cols: nat, cell: (int, int) -> T, rows: nat, x: int, y: int)
    requires 0 <= x < rows && 0 <= y < cols
    ensures x * cols + y < |Grid(cols, cell, rows)| && Grid(cols, cell, rows)[x * cols + y] == cell(x, y)
    decreases rows
  {
    GridSize(cols, cell, rows - 1);
    GridSize(cols, cell, rows);
    if x < rows - 1 {
      GridCell(cols, cell, rows - 1, x, y);
    } else {
      assert x * cols + y == |Grid(cols, cell, rows - 1)| + y;
    }
  }

  function VertexCell(height: (int, int) -> real): (int, int) -> Vertex {
    (x: int, y: int) => Vertex(x, y, height(x, y))
  }

  function FaceCell(n: int): (int, int) -> Face {
    (x: int, y: int) => FaceAt(x, y, n)
  }

  /** The nested vertex loop of ParametricSurface.run. */
  method SurfaceVertices(size: int, height: (int, int) -> real) returns (verts: seq<Vertex>)
    ensures verts == Grid(Side(size), VertexCell(height), Side(size))
  {
    var n := Side(size);
    var cell := VertexCell(height);
    verts := [];
    for x := 0 to n
      invariant verts == Grid(n, cell, x)
    {
      for y := 0 to n
        invariant verts == Grid(n, cell, x) + GridRow(n, cell, x)[..y]
      {
        assert GridRow(n, cell, x)[..y + 1] == GridRow(n, cell, x)[..y] + [cell(x, y)];
        verts := verts + [Vertex(x, y, height(x, y))];
      }
      assert GridRow(n, cell, x)[..n] == GridRow(n, cell, x);
    }
  }

  /** The nested face loop of ParametricSurface.run. */
  method SurfaceFaces(size: int) returns (faces: seq<Face>)
    ensures faces == Grid(FaceSide(size), FaceCell(Side(size)), FaceSide(size))
    ensures forall k :: 0 <= k < |faces| ==> InRange(faces[k], Side(size) * Side(size))
  {
    var n, m := Side(size), FaceSide(size);
    var cell := FaceCell(n);
    faces := [];
    for x := 0 to m
      invariant faces == Grid(m, cell, x)
      invariant forall k :: 0 <= k < |faces| ==> InRange(faces[k], n * n)
    {
      for y := 0 to m
        invariant faces == Grid(m, cell, x) + GridRow(m, cell, x)[..y]
        invariant forall k :: 0 <= k < |faces| ==> InRange(faces[k], n * n)
      {
        assert GridRow(m, cell, x)[..y + 1] == GridRow(m, cell, x)[..y] + [cell(x, y)];
        var i := x * n + y;
        CellInRange(x, y, n);
        faces := faces + [Face(i, i + 1, i + n + 1, i + n)];
      }
      assert GridRow(m, cell, x)[..m] == GridRow(m, cell, x);
    }
  }

  /** The surface's vertex (x, y) stands at index x·n+y of its n² vertices. */
  lemma VertexAt(n: nat, height: (int, int) -> real, x: int, y: int)
    requires 0 <= x < n && 0 <= y < n
    ensures var verts := Grid(n, VertexCell(height), n);
            |verts| == n * n && x * n + y < |verts| && verts[x * n + y] == Vertex(x, y, height(x, y))
  {
    GridSize(n, VertexCell(height), n);
    GridCell(n, VertexCell(height), n, x, y);
  }

  /** The surface's face for cell (x, y) stands at index x·m+y of its m² faces, m being
      the number of cells per axis and n the number of vertices per axis. */
  lemma FaceAtCell(m: nat, n: nat, x: int, y: int)
    requires 0 <= x < m && 0 <= y < m
    ensures var faces := Grid(m, FaceCell(n), m);
            |faces| == m * m && x * m + y < |faces| && faces[x * m + y] == FaceAt(x, y, n)
  {
    GridSize(m, FaceCell(n), m);
    GridCell(m, FaceCell(n), m, x, y);
  }

  /** A face's corners are the vertices (x,y), (x,y+1), (x+1,y+1) and (x+1,y), four
      different grid neighbours. */
  lemma FaceCorners(n: nat, height: (int, int) -> real, x: int, y: int)
    requires 0 <= x < n - 1 && 0 <= y < n - 1
    ensures var verts, f := Grid(n, VertexCell(height), n), FaceAt(x, y, n);
            InRange(f, |verts|) &&
            verts[f.a] == Vertex(x, y, height(x, y)) && verts[f.b] == Vertex(x, y + 1, height(x, y + 1)) &&
            verts[f.c] == Vertex(x + 1, y + 1, height(x + 1, y + 1)) && verts[f.d] == Vertex(x + 1, y, height(x + 1, y)) &&
            f.a != f.b && f.a != f.c && f.a != f.d && f.b != f.c && f.b != f.d && f.c != f.d
  {
    CellInRange(x, y, n);
    var f := FaceAt(x, y, n);
    VertexAt(n, height, x, y);
    VertexAt(n, height, x, y + 1);
    VertexAt(n, height, x + 1, y + 1);
    VertexAt(n, height, x + 1, y);
    assert f.c == (x + 1) * n + (y + 1);
    assert f.d == (x + 1) * n + y;
  }

  /** The first face is [0, 1, size+1, size] once the grid is 2 by 2; a smaller grid
      has no faces. */
  lemma FirstFace(size: int)
    ensures var faces := Grid(FaceSide(size), FaceCell(Side(size)), FaceSide(size));
            (size >= 2 ==> |faces| == (size - 1) * (size - 1) && faces[0] == Face(0, 1, size + 1, size)) &&
            (size <= 1 ==> faces == [])
  {
    if size >= 2 {
      FaceAtCell(FaceSide(size), Side(size), 0, 0);
    }
  }

  /** ParametricSurface.run's mesh: size² vertices and (size-1)² faces whose indices
      are all vertex indices. */
  method ParametricSurface(size: int, height: (int, int) -> real) returns (verts: seq<Vertex>, faces: seq<Face>)
    ensures verts == Grid(Side(size), VertexCell(height), Side(size))
    ensures faces == Grid(FaceSide(size), FaceCell(Side(size)), FaceSide(size))
    ensures |verts| == Side(size) * Side(size) && |faces| == FaceSide(size) * FaceSide(size)
    ensures forall k :: 0 <= k < |faces| ==> InRange(faces[k], |verts|)
  {
    verts := SurfaceVertices(size, height);
    faces := SurfaceFaces(size);
    GridSize(Side(size), VertexCell(height), Side(size));
    GridSize(FaceSide(size), FaceCell(Side(size)), FaceSide(size));
  }

  // ----- registration -----

  /** The add-on's operator and panel classes. */
  datatype AddonClass = SpiralOperator | SurfaceOperator | BounceOperator | GraphOperator | HelloPanel

  /** `classes`, in registration order. */
  const Classes: seq<AddonClass> := [SpiralOperator, SurfaceOperator, BounceOperator, GraphOperator, HelloPanel]

  /** What a sequence of register_class / unregister_class calls records. */
  datatype Call = RegisterClass(cls: AddonClass) | UnregisterClass(cls: AddonClass)

  function Reverse<T>(s: seq<T>): (r: seq<T>)
    ensures |r| == |s| && forall k :: 0 <= k < |s| ==> r[k] == s[|s| - 1 - k]
  {
    seq(|s|, k requires 0 <= k < |s| => s[|s| - 1 - k])
  }

  /** unregister_class: the registry without the class. */
  function Without(s: seq<AddonClass>, c: AddonClass): (r: seq<AddonClass>)
    ensures forall d :: d in r <==> d in s && d != c
  {
    if s == [] then [] else Without(s[..|s| - 1], c) + (if s[|s| - 1] == c then [] else [s[|s| - 1]])
  }

  /** Removing the most recently registered class, registered once, drops the last
      entry: the registry behaves as a stack. */
  lemma {:induction false} WithoutLast(s: seq<AddonClass>)
    requires s != [] && forall k :: 0 <= k < |s| - 1 ==> s[k] != s[|s| - 1]
    ensures Without(s, s[|s| - 1]) == s[..|s| - 1]
  {
    WithoutAbsent(s[..|s| - 1], s[|s| - 1]);
  }

  lemma {:induction false} WithoutAbsent(s: seq<AddonClass>, c: AddonClass)
    requires c !in s
    ensures Without(s, c) == s
    decreases |s|
  {
    if s != [] {
      WithoutAbsent(s[..|s| - 1], c);
    }
  }

  /** Blender's class registry, as far as the add-on touches it. */
  class Registry {
    /** The registered classes, oldest first. */
    var registered: seq<AddonClass>
    /** The calls made so far. */
    var calls: seq<Call>

    constructor ()
      ensures registered == [] && calls == []
    {
      registered := [];
      calls := [];
    }

    /** register: each class in list order. */
    method Register()
      modifies this
      ensures registered == old(registered) + Classes
      ensures calls == old(calls) + seq(|Classes|, k requires 0 <= k < |Classes| => RegisterClass(Classes[k]))
    {
      for k := 0 to |Classes|
        invariant registered == old(registered) + Classes[..k]
        invariant calls == old(calls) + seq(k, t requires 0 <= t < k => RegisterClass(Classes[t]))
      {
        assert Classes[..k + 1] == Classes[..k] + [Classes[k]];
        registered := registered + [Classes[k]];
        calls := calls + [RegisterClass(Classes[k])];
      }
    }

    /** unregister: each class in reverse list order. After register the class being
        removed is always the most recently registered one, so the registry empties
        like a stack. */
    method Unregister()
      requires registered == Classes
      modifies this
      ensures registered == []
      ensures calls == old(calls) + seq(|Classes|, k requires 0 <= k < |Classes| => UnregisterClass(Reverse(Classes)[k]))
    {
      var order := Reverse(Classes);
      for k := 0 to |order|
        invariant registered == Classes[..|Classes| - k]
        invariant calls == old(calls) + seq(k, t requires 0 <= t < k => UnregisterClass(order[t]))
      {
        assert registered[|registered| - 1] == order[k];
        WithoutLast(registered);
        registered := Without(registered, order[k]);
        calls := calls + [UnregisterClass(order[k])];
      }
    }
  }
}
