/** The local vector store: cosine similarity and top-k queries (plugins/memory/indexer.py). */
module VectorStore {
  import opened Sequences
  import S = StableSort

  type Vector = seq<real>

  /* ----- cosine similarity ----- */

  /** `math.sqrt` on exact reals. */
  ghost predicate IsSquareRoot(sqrt: real -> real)
  {
    forall x: real :: x >= 0.0 ==> sqrt(x) >= 0.0 && sqrt(x) * sqrt(x) == x
  }

  function Dot(a: Vector, b: Vector): real
    requires |a| == |b|
  {
    if a == [] then 0.0 else Dot(a[..|a| - 1], b[..|b| - 1]) + a[|a| - 1] * b[|b| - 1]
  }

  lemma {:induction false} DotSelf(a: Vector)
    ensures Dot(a, a) >= 0.0
  {
    if a != [] {
      DotSelf(a[..|a| - 1]);
      Square(a[|a| - 1]);
    }
  }

  lemma Square(x: real)
    ensures x * x >= 0.0
  {
  }

  lemma PositiveProduct(x: real, y: real)
    ensures x > 0.0 && y > 0.0 ==> x * y > 0.0
    ensures x < 0.0 && y > 0.0 ==> x * y < 0.0
  {
  }

  lemma LargerSquare(x: real, y: real)
    requires x > y >= 0.0
    ensures x * x > y * y
  {
    PositiveProduct(x - y, x + y);
    assert x * x - y * y == (x - y) * (x + y);
  }

  /** From t*t <= p*q to 2t <= p+q: the geometric mean is at most the arithmetic one. */
  lemma MeansInequality(t: real, p: real, q: real)
    requires p >= 0.0 && q >= 0.0 && t * t <= p * q
    ensures 2.0 * t <= p + q
  {
    Square(p - q);
    assert (p + q) * (p + q) == (p - q) * (p - q) + 4.0 * (p * q);
    assert (2.0 * t) * (2.0 * t) == 4.0 * (t * t);
    if 2.0 * t > p + q {
      LargerSquare(2.0 * t, p + q);
      assert false;
    }
  }

  lemma ProductOfSquares(d: real, u: real, v: real, x: real, y: real)
    requires d * d <= u * v
    ensures (d * (x * y)) * (d * (x * y)) <= (u * (y * y)) * (v * (x * x))
  {
    var s := (x * y) * (x * y);
    Square(x * y);
    assert s == (x * x) * (y * y);
    assert (d * (x * y)) * (d * (x * y)) == (d * d) * s;
    assert (u * (y * y)) * (v * (x * x)) == (u * v) * s;
    assert (d * d) * s <= (u * v) * s;
  }

  lemma SquareOfSum(d: real, z: real)
    ensures (d + z) * (d + z) == d * d + 2.0 * (d * z) + z * z
  {
  }

  lemma ProductOfSums(u: real, v: real, x: real, y: real)
    ensures (u + x) * (v + y) == u * v + u * y + v * x + x * y
  {
  }

  lemma CrossTerm(d: real, u: real, v: real, x: real, y: real)
    requires u >= 0.0 && v >= 0.0 && d * d <= u * v
    ensures 2.0 * (d * (x * y)) <= u * (y * y) + v * (x * x)
  {
    var xx, yy := x * x, y * y;
    assert u * yy >= 0.0 && v * xx >= 0.0 by {
      Square(x);
      Square(y);
      PositiveProduct(u, yy);
      PositiveProduct(v, xx);
    }
    ProductOfSquares(d, u, v, x, y);
    MeansInequality(d * (x * y), u * yy, v * xx);
  }

  /** One step of the accumulator loop keeps the square of the dot product under the product of the norms. */
  lemma AccumulatorStep(d: real, u: real, v: real, x: real, y: real)
    requires u >= 0.0 && v >= 0.0 && d * d <= u * v
    ensures (d + x * y) * (d + x * y) <= (u + x * x) * (v + y * y)
  {
    CrossTerm(d, u, v, x, y);
    SquareOfSum(d, x * y);
    ProductOfSums(u, v, x * x, y * y);
    assert (x * y) * (x * y) == (x * x) * (y * y) by {
      assert (x * y) * (x * y) == x * (y * (x * y));
      assert (x * x) * (y * y) == x * (x * (y * y));
      assert y * (x * y) == x * (y * y);
    }
  }

  lemma {:induction false} CauchySchwarz(a: Vector, b: Vector)
    requires |a| == |b|
    ensures Dot(a, b) * Dot(a, b) <= Dot(a, a) * Dot(b, b)
  {
    if a != [] {
      var a', b' := a[..|a| - 1], b[..|b| - 1];
      CauchySchwarz(a', b');
      DotSelf(a');
      DotSelf(b');
      AccumulatorStep(Dot(a', b'), Dot(a', a'), Dot(b', b'), a[|a| - 1], b[|b| - 1]);
    }
  }

  /** A dot product over the roots of two squared norms, zero when either norm is.  The test on `scale` only
      keeps the function total: the roots of two squared norms that are not zero are not zero. */
  function Quotient(sqrt: real -> real, d: real, u: real, v: real): real
  {
    var scale := sqrt(u) * sqrt(v);
    if u == 0.0 || v == 0.0 || scale == 0.0 then 0.0 else d / scale
  }

  /** Zero for empty vectors, vectors of different lengths and zero vectors. */
  function Cosine(sqrt: real -> real, a: Vector, b: Vector): real
  {
    if a == [] || b == [] || |a| != |b| then 0.0 else Quotient(sqrt, Dot(a, b), Dot(a, a), Dot(b, b))
  }

  lemma RootProduct(sqrt: real -> real, u: real, v: real)
    requires IsSquareRoot(sqrt) && u >= 0.0 && v >= 0.0
    ensures sqrt(u) * sqrt(v) >= 0.0
    ensures (sqrt(u) * sqrt(v)) * (sqrt(u) * sqrt(v)) == u * v
    ensures u != 0.0 && v != 0.0 ==> sqrt(u) * sqrt(v) > 0.0
  {
    var s, t := sqrt(u), sqrt(v);
    assert (s * t) * (s * t) == (s * s) * (t * t);
    if u != 0.0 && v != 0.0 {
      assert s != 0.0 && t != 0.0;
    }
  }

  lemma AbsFromSquares(d: real, m: real)
    requires m >= 0.0 && d * d <= m * m
    ensures -m <= d <= m
  {
    assert (-d) * (-d) == d * d;
    if d > m {
      LargerSquare(d, m);
      assert false;
    } else if d < -m {
      LargerSquare(-d, m);
      assert false;
    }
  }

  lemma QuotientInUnit(d: real, m: real)
    requires m > 0.0 && -m <= d <= m
    ensures -1.0 <= d / m <= 1.0
  {
    var q := d / m;
    assert q * m == d;
    PositiveProduct(1.0 - q, m);
    PositiveProduct(1.0 + q, m);
    assert (1.0 - q) * m == m - d && (1.0 + q) * m == m + d;
  }

  lemma QuotientBounded(sqrt: real -> real, d: real, u: real, v: real)
    requires IsSquareRoot(sqrt) && u >= 0.0 && v >= 0.0 && d * d <= u * v
    ensures -1.0 <= Quotient(sqrt, d, u, v) <= 1.0
  {
    if u != 0.0 && v != 0.0 {
      RootProduct(sqrt, u, v);
      AbsFromSquares(d, sqrt(u) * sqrt(v));
      QuotientInUnit(d, sqrt(u) * sqrt(v));
    }
  }

  lemma QuotientSymmetric(sqrt: real -> real, d: real, u: real, v: real)
    ensures Quotient(sqrt, d, u, v) == Quotient(sqrt, d, v, u)
  {
    assert sqrt(u) * sqrt(v) == sqrt(v) * sqrt(u);
  }

  lemma QuotientOfSelf(sqrt: real -> real, u: real)
    requires IsSquareRoot(sqrt) && u > 0.0
    ensures Quotient(sqrt, u, u, u) == 1.0
  {
    assert sqrt(u) * sqrt(u) == u;
    assert u / u == 1.0;
  }

  lemma {:induction false} DotSymmetric(a: Vector, b: Vector)
    requires |a| == |b|
    ensures Dot(a, b) == Dot(b, a)
  {
    if a != [] {
      DotSymmetric(a[..|a| - 1], b[..|b| - 1]);
    }
  }

  /** The similarity always lies in [-1, 1]; a vector that is not zero is wholly similar to itself; and the
      order of the two vectors does not matter. */
  lemma CosineRange(sqrt: real -> real, a: Vector, b: Vector)
    requires IsSquareRoot(sqrt)
    ensures -1.0 <= Cosine(sqrt, a, b) <= 1.0
    ensures a != [] && Dot(a, a) != 0.0 ==> Cosine(sqrt, a, a) == 1.0
    ensures Cosine(sqrt, a, b) == Cosine(sqrt, b, a)
  {
    DotSelf(a);
    DotSelf(b);
    if a != [] && Dot(a, a) != 0.0 {
      QuotientOfSelf(sqrt, Dot(a, a));
    }
    if |a| == |b| {
      CauchySchwarz(a, b);
      DotSymmetric(a, b);
      QuotientBounded(sqrt, Dot(a, b), Dot(a, a), Dot(b, b));
      QuotientSymmetric(sqrt, Dot(a, b), Dot(a, a), Dot(b, b));
    }
  }

  /** The dot product adds up the products of the elements. */
  lemma {:induction false} DotAppend(a: Vector, b: Vector, c: Vector, d: Vector)
    requires |a| == |b| && |c| == |d|
    ensures Dot(a + c, b + d) == Dot(a, b) + Dot(c, d)
  {
    if c == [] {
      assert a + c == a && b + d == b;
    } else {
      var n := |c| - 1;
      DotAppend(a, b, c[..n], d[..n]);
      assert (a + c)[..|a + c| - 1] == a + c[..n] && (b + d)[..|b + d| - 1] == b + d[..n];
    }
  }

  lemma DotOne(x: real, y: real)
    ensures Dot([x], [y]) == x * y
  {
    assert [x][..0] == [] && [y][..0] == [];
  }

  /** The cosine times the two lengths is the dot product. */
  lemma CosineTimesLengths(sqrt: real -> real, a: Vector, b: Vector)
    requires IsSquareRoot(sqrt) && |a| == |b|
    ensures Cosine(sqrt, a, b) * (sqrt(Dot(a, a)) * sqrt(Dot(b, b))) == Dot(a, b)
  {
    DotSelf(a);
    DotSelf(b);
    CauchySchwarz(a, b);
    if a == [] {
      assert Dot(a, b) == 0.0;
    } else {
      QuotientTimesRoots(sqrt, Dot(a, b), Dot(a, a), Dot(b, b));
    }
  }

  lemma QuotientTimesRoots(sqrt: real -> real, d: real, u: real, v: real)
    requires IsSquareRoot(sqrt) && u >= 0.0 && v >= 0.0 && d * d <= u * v
    ensures Quotient(sqrt, d, u, v) * (sqrt(u) * sqrt(v)) == d
  {
    RootProduct(sqrt, u, v);
    if u == 0.0 || v == 0.0 {
      assert u * v == 0.0;
      AbsFromSquares(d, 0.0);
    }
  }

  function Scale(k: real, a: Vector): Vector
  {
    seq(|a|, i requires 0 <= i < |a| => k * a[i])
  }

  lemma ScaleInit(k: real, a: Vector)
    requires a != []
    ensures var n := |a| - 1; Scale(k, a)[..n] == Scale(k, a[..n]) && Scale(k, a)[n] == k * a[n]
  {
    var n := |a| - 1;
    forall i | 0 <= i < n ensures Scale(k, a)[..n][i] == Scale(k, a[..n])[i] {
      assert a[..n][i] == a[i];
    }
  }

  lemma {:induction false} DotScale(k: real, a: Vector, b: Vector)
    requires |a| == |b|
    ensures Dot(Scale(k, a), b) == k * Dot(a, b)
  {
    if a != [] {
      var n := |a| - 1;
      DotScale(k, a[..n], b[..n]);
      ScaleInit(k, a);
      Distribute(k, Dot(a[..n], b[..n]), a[n], b[n]);
    }
  }

  lemma Distribute(k: real, d: real, x: real, y: real)
    ensures k * (d + x * y) == k * d + k * x * y
  {
  }

  /** Stretching a vector does not change the cosine, turning it round negates it. */
  lemma CosineOfScaled(sqrt: real -> real, k: real, a: Vector, b: Vector)
    requires IsSquareRoot(sqrt) && k != 0.0
    ensures Cosine(sqrt, Scale(k, a), b) == if k > 0.0 then Cosine(sqrt, a, b) else -Cosine(sqrt, a, b)
  {
    var scaled := Scale(k, a);
    assert |scaled| == |a| && (scaled == [] <==> a == []);
    if a == [] || |a| != |b| {
      NoCosine(sqrt, a, b);
      NoCosine(sqrt, scaled, b);
    } else {
      DotScale(k, a, b);
      DotOfScaled(k, a);
      DotSelf(a);
      DotSelf(b);
      QuotientOfScaled(sqrt, k, Dot(a, b), Dot(a, a), Dot(b, b), Dot(scaled, b), Dot(scaled, scaled));
    }
  }

  lemma NoCosine(sqrt: real -> real, a: Vector, b: Vector)
    requires a == [] || |a| != |b|
    ensures Cosine(sqrt, a, b) == 0.0
  {
  }

  lemma {:induction false} DotOfScaled(k: real, a: Vector)
    ensures Dot(Scale(k, a), Scale(k, a)) == k * (k * Dot(a, a))
  {
    if a != [] {
      var n := |a| - 1;
      DotOfScaled(k, a[..n]);
      ScaleInit(k, a);
      DistributeTwice(k, Dot(a[..n], a[..n]), a[n]);
    }
  }

  lemma DistributeTwice(k: real, d: real, x: real)
    ensures k * (k * (d + x * x)) == k * (k * d) + (k * x) * (k * x)
  {
  }

  lemma RootOfScaled(sqrt: real -> real, k: real, u: real)
    requires IsSquareRoot(sqrt) && u >= 0.0
    ensures k * (k * u) >= 0.0
    ensures sqrt(k * (k * u)) == (if k >= 0.0 then k else -k) * sqrt(u)
  {
    var j := if k >= 0.0 then k else -k;
    var s := sqrt(u);
    ScaledSquare(k, j, s, u);
    SameRoot(sqrt(k * (k * u)), j * s);
  }

  lemma ScaledSquare(k: real, j: real, s: real, u: real)
    requires u >= 0.0 && s >= 0.0 && s * s == u && j >= 0.0 && (j == k || j == -k)
    ensures k * (k * u) == (j * s) * (j * s) >= 0.0 && j * s >= 0.0
  {
    assert k * k == j * j;
    assert k * (k * u) == (k * k) * u;
    assert (j * s) * (j * s) == (j * j) * (s * s);
    Square(j * s);
  }

  lemma SameRoot(x: real, y: real)
    requires x >= 0.0 && y >= 0.0 && x * x == y * y
    ensures x == y
  {
    if x > y {
      LargerSquare(x, y);
    } else if y > x {
      LargerSquare(y, x);
    }
  }

  lemma QuotientOfScaled(sqrt: real -> real, k: real, d: real, u: real, v: real, e: real, w: real)
    requires IsSquareRoot(sqrt) && k != 0.0 && u >= 0.0 && v >= 0.0
    requires e == k * d && w == k * (k * u)
    ensures Quotient(sqrt, e, w, v) == if k > 0.0 then Quotient(sqrt, d, u, v) else -Quotient(sqrt, d, u, v)
  {
    if u == 0.0 {
      assert w == 0.0;
    } else if v != 0.0 {
      RootOfScaled(sqrt, k, u);
      RootProduct(sqrt, u, v);
      NotZero(k, u);
      RatioOfScaled(k, if k > 0.0 then k else -k, d, e, sqrt(u), sqrt(v), sqrt(w));
    }
  }

  lemma RatioOfScaled(k: real, j: real, d: real, e: real, s: real, t: real, r: real)
    requires s * t > 0.0 && r == j * s && e == k * d && j > 0.0 && (j == k || j == -k)
    ensures r * t != 0.0 && e / (r * t) == if j == k then d / (s * t) else -(d / (s * t))
  {
    JoinFactors(j, s, t);
    CancelFactor(k, j, d, s * t, e);
  }

  lemma JoinFactors(x: real, y: real, z: real)
    ensures (x * y) * z == x * (y * z)
  {
  }

  lemma NotZero(k: real, u: real)
    requires k != 0.0 && u != 0.0
    ensures k * (k * u) != 0.0
  {
    assert k * u != 0.0;
  }

  lemma CancelFactor(k: real, j: real, d: real, m: real, e: real)
    requires m > 0.0 && j > 0.0 && (j == k || j == -k) && e == k * d
    ensures j * m != 0.0 && e / (j * m) == if j == k then d / m else -(d / m)
  {
    PositiveProduct(j, m);
    var q := d / m;
    assert q * m == d;
    if j == k {
      assert e == q * (j * m);
    } else {
      assert e == (-q) * (j * m);
    }
  }

  /** `_cosine_similarity`: one pass accumulates the dot product and both squared norms. */
  method CosineSimilarity(sqrt: real -> real, a: Vector, b: Vector) returns (sim: real)
    requires IsSquareRoot(sqrt)
    ensures sim == Cosine(sqrt, a, b)
  {
    if a == [] || b == [] || |a| != |b| {
      return 0.0;
    }
    var dot, na, nb := 0.0, 0.0, 0.0;
    for i := 0 to |a|
      invariant dot == Dot(a[..i], b[..i]) && na == Dot(a[..i], a[..i]) && nb == Dot(b[..i], b[..i])
    {
      PrefixStep(a, i);
      PrefixStep(b, i);
      dot, na, nb := dot + a[i] * b[i], na + a[i] * a[i], nb + b[i] * b[i];
    }
    assert a[..|a|] == a && b[..|b|] == b;
    if na == 0.0 || nb == 0.0 {
      return 0.0;
    }
    DotSelf(a);
    DotSelf(b);
    RootProduct(sqrt, na, nb);
    return dot / (sqrt(na) * sqrt(nb));
  }

  /* ----- the store ----- */

  /** The columns about a normalised copy of the vector, stored as given. */
  datatype Normalized = Normalized(
    vector: Option<Vector>,
    vectorDim: Option<int>,
    algo: Option<string>,
    at: Option<string>,
    version: Option<int>)

  datatype Entry = Entry(
    embeddingId: string,
    chunkId: string,
    vector: Vector,
    vectorDim: nat,
    createdAt: string,
    sourcePath: Option<string>,
    scoreMeta: map<string, string>,
    normalized: Normalized)

  datatype Match = Match(entry: Entry, similarity: real)

  function Scored(sqrt: real -> real, query: Vector): Entry -> Match
  {
    (e: Entry) => Match(e, Cosine(sqrt, query, e.vector))
  }

  function Similarity(m: Match): real
  {
    m.similarity
  }

  predicate Descending(a: real, b: real)
  {
    a >= b
  }

  /** Python's `xs[:k]`: a negative bound counts from the end. */
  function SliceTo<T>(xs: seq<T>, k: int): seq<T>
  {
    if k >= |xs| then xs else if k >= 0 then xs[..k] else if |xs| + k >= 0 then xs[..|xs| + k] else []
  }

  /** All rows with their similarity, best first, ties in row order. */
  function Ranking(sqrt: real -> real, query: Vector, rows: seq<Entry>): seq<Match>
  {
    S.Sort(Map(rows, Scored(sqrt, query)), Similarity, Descending)
  }

  function TopK(sqrt: real -> real, query: Vector, rows: seq<Entry>, k: int): seq<Match>
  {
    SliceTo(Ranking(sqrt, query, rows), k)
  }

  class LocalVectorStore {
    /** The `entries` table in rowid order. */
    var rows: seq<Entry>

    ghost predicate Valid()
      reads this
    {
      && (forall i, j :: 0 <= i < j < |rows| ==> rows[i].embeddingId != rows[j].embeddingId)
      && (forall e :: e in rows ==> e.vectorDim == |e.vector|)
    }

    constructor ()
      ensures Valid() && rows == []
    {
      rows := [];
    }

    /** `add_entry`: refused, with the table unchanged, when the embedding id is taken.  The clock stands in
        for a creation time that is missing or empty. */
    method AddEntry(embeddingId: string, chunkId: string, vector: Vector, createdAt: Option<string>,
                    sourcePath: Option<string>, scoreMeta: Option<map<string, string>>, normalized: Normalized,
                    clock: string) returns (inserted: bool)
      requires Valid()
      modifies this
      ensures Valid()
      ensures inserted <==> forall e :: e in old(rows) ==> e.embeddingId != embeddingId
      ensures !inserted ==> rows == old(rows)
      ensures inserted ==>
        && |rows| == |old(rows)| + 1 && rows[..|old(rows)|] == old(rows)
        && var row := rows[|old(rows)|];
           && row.embeddingId == embeddingId && row.chunkId == chunkId
           && row.vector == vector && row.vectorDim == |vector|
           && row.createdAt == (if createdAt == None || createdAt.value == "" then clock else createdAt.value)
           && row.sourcePath == sourcePath && row.normalized == normalized
           && row.scoreMeta == (if scoreMeta == None then map[] else scoreMeta.value)
    {
      if exists e :: e in rows && e.embeddingId == embeddingId {
        return false;
      }
      var created := if createdAt == None || createdAt.value == "" then clock else createdAt.value;
      var meta := if scoreMeta == None then map[] else scoreMeta.value;
      rows := rows + [Entry(embeddingId, chunkId, vector, |vector|, created, sourcePath, meta, normalized)];
      return true;
    }

    /** `query_by_vector`. */
    method QueryByVector(sqrt: real -> real, query: Vector, topK: int) returns (results: seq<Match>)
      requires IsSquareRoot(sqrt)
      ensures results == TopK(sqrt, query, rows, topK)
    {
      var parsed: seq<Match> := [];
      for i := 0 to |rows|
        invariant parsed == Map(rows[..i], Scored(sqrt, query))
      {
        PrefixStep(rows, i);
        MapLast(rows[..i], rows[i], Scored(sqrt, query));
        var sim := CosineSimilarity(sqrt, query, rows[i].vector);
        parsed := parsed + [Match(rows[i], sim)];
      }
      assert rows[..|rows|] == rows;
      parsed := S.Sort(parsed, Similarity, Descending);
      results := SliceTo(parsed, topK);
    }
  }

  lemma DescendingOrder()
    ensures S.TotalPreorder(Descending)
  {
  }

  /** The k returned matches are rows of the store, k of them or all there are, in falling similarity; no
      match left out is better than one returned. */
  lemma TopKIsBest(sqrt: real -> real, query: Vector, rows: seq<Entry>, k: nat)
    ensures var ranking := Ranking(sqrt, query, rows); var top := TopK(sqrt, query, rows, k);
      && |ranking| == |rows|
      && multiset(ranking) == multiset(Map(rows, Scored(sqrt, query)))
      && |top| == (if k < |rows| then k else |rows|)
      && top == ranking[..|top|]
      && S.Sorted(top, Similarity, Descending)
      && forall i, j :: 0 <= i < |top| <= j < |ranking| ==> top[i].similarity >= ranking[j].similarity
  {
    DescendingOrder();
    S.SortSorted(Map(rows, Scored(sqrt, query)), Similarity, Descending);
    var ranking, top := Ranking(sqrt, query, rows), TopK(sqrt, query, rows, k);
    assert top == ranking[..|top|];
    forall i, j | 0 <= i < |top| <= j < |ranking| ensures top[i].similarity >= ranking[j].similarity {
      assert Descending(Similarity(ranking[i]), Similarity(ranking[j]));
    }
  }

  /** Rows that are equally similar to the query come out in row order. */
  lemma TiesInRowOrder(sqrt: real -> real, query: Vector, rows: seq<Entry>, similarity: real)
    ensures Filter(Ranking(sqrt, query, rows), S.Ties(Similarity, Descending, similarity))
         == Filter(Map(rows, Scored(sqrt, query)), S.Ties(Similarity, Descending, similarity))
  {
    DescendingOrder();
    S.SortStable(Map(rows, Scored(sqrt, query)), Similarity, Descending, similarity);
  }

  /** A negative `k` drops so many matches from the end, as a negative slice bound does. */
  lemma NegativeKDrops(sqrt: real -> real, query: Vector, rows: seq<Entry>, k: int)
    requires k < 0
    ensures var (ranking, top) := (Ranking(sqrt, query, rows), TopK(sqrt, query, rows, k));
      && top <= ranking && |top| == if |ranking| + k > 0 then |ranking| + k else 0
  {
  }


  lemma SmallerKIsPrefix(sqrt: real -> real, query: Vector, rows: seq<Entry>, k: nat, l: nat)
    requires k <= l
    ensures TopK(sqrt, query, rows, k) <= TopK(sqrt, query, rows, l)
  {
  }

  /** Querying with the vector of a stored row that is not zero returns a match of similarity 1 first. */
  lemma StoredVectorIsFound(sqrt: real -> real, rows: seq<Entry>, e: Entry, k: nat)
    requires IsSquareRoot(sqrt) && e in rows && e.vector != [] && Dot(e.vector, e.vector) != 0.0 && k > 0
    ensures TopK(sqrt, e.vector, rows, k) != [] && TopK(sqrt, e.vector, rows, k)[0].similarity == 1.0
  {
    var scored := Map(rows, Scored(sqrt, e.vector));
    var i :| 0 <= i < |rows| && rows[i] == e;
    CosineRange(sqrt, e.vector, e.vector);
    assert scored[i] == Match(e, 1.0) && scored[i] in scored;
    TopKIsBest(sqrt, e.vector, rows, k);
    DescendingOrder();
    S.SortMember(scored, Similarity, Descending, scored[i]);
    S.SortSorted(scored, Similarity, Descending);
    var best := Ranking(sqrt, e.vector, rows)[0];
    S.HeadIsLeast(Ranking(sqrt, e.vector, rows), scored[i], Similarity, Descending);
    S.SortMember(scored, Similarity, Descending, best);
    var j :| 0 <= j < |scored| && scored[j] == best;
    CosineRange(sqrt, e.vector, rows[j].vector);
  }
}
