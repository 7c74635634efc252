/** The problem instance and the reader of the structured dataset file
    (facility-location/src/data.py). */
module Dataset {

  /** One capacitated facility location instance. `I` lists the customers
      and `J` the facilities; `shipmentCosts` is customer-major:
      `shipmentCosts[i][j]` is the cost of shipping one unit from facility
      `j` to customer `i`. */
  datatype Data = Data(
    I: seq<int>,
    J: seq<int>,
    demands: seq<real>,
    capacities: seq<real>,
    fixedCosts: seq<real>,
    shipmentCosts: seq<seq<real>>)
  {
    /** The dimensions match the index sets, and the index sets are the
        ranges `0..n` and `0..m`. */
    predicate Valid()
    {
      && I == Range(|demands|)
      && J == Range(|capacities|)
      && |fixedCosts| == |J|
      && IsMatrix(shipmentCosts, |I|, |J|)
    }
  }

  datatype Option<T> = None | Some(value: T)

  /** Why reading a dataset fails: the word iterator ran out at position
      `pos` (StopIteration), or `int()` was given a non-integral value, or a
      count is negative. */
  datatype ReadError = Exhausted(pos: nat) | NotAnInteger(pos: nat) | NegativeCount(pos: nat)

  datatype Result<T> = Ok(value: T) | Err(error: ReadError)

  /** `np.arange(n)`. */
  function Range(n: nat): (r: seq<int>)
    ensures |r| == n
    ensures forall k :: 0 <= k < n ==> r[k] == k
  {
    seq(n, k => k)
  }

  predicate IsMatrix(a: seq<seq<real>>, rows: nat, cols: nat)
  {
    |a| == rows && forall r :: 0 <= r < rows ==> |a[r]| == cols
  }

  /** A value `int()` accepts. */
  predicate IsInteger(x: real)
  {
    x.Floor as real == x
  }

  /** A value that can stand for a number of facilities or customers. */
  predicate IsCount(x: real)
  {
    IsInteger(x) && x >= 0.0
  }

  function Count(x: real): nat
    requires IsCount(x)
  {
    x.Floor
  }

  /** The product of two counts, by repeated addition. The reader's index
      arithmetic is stated with it so that its proofs stay linear;
      `MulIsProduct` ties it to `*`. */
  function Mul(a: nat, b: nat): nat
  {
    if a == 0 then 0 else b + Mul(a - 1, b)
  }

  lemma {:induction false} MulIsProduct(a: nat, b: nat)
    ensures Mul(a, b) == a * b
  {
    if a > 0 {
      MulIsProduct(a - 1, b);
      assert b + (a - 1) * b == a * b;
    }
  }

  /** Number of words the reader consumes for `m` facilities and `n`
      customers: `2 + 2m + n + m·n`. */
  function TokenCount(m: nat, n: nat): nat
  {
    2 + 2 * m + n + Mul(m, n)
  }

  // ---------------------------------------------------------------------
  // Matrix shape operations used by the reader (numpy reshape / transpose)
  // ---------------------------------------------------------------------

  /** `np.array(flat).reshape(rows, cols)`: row-major. */
  function Reshape(flat: seq<real>, rows: nat, cols: nat): (a: seq<seq<real>>)
    requires |flat| == Mul(rows, cols)
    ensures IsMatrix(a, rows, cols)
    decreases rows
  {
    if rows == 0 then []
    else
      [flat[..cols]] + Reshape(flat[cols..], rows - 1, cols)
  }

  /** `reshape` is row-major: entry `[r][c]` is flat entry `r·cols + c`. */
  lemma {:induction false} ReshapeAt(flat: seq<real>, rows: nat, cols: nat, r: nat, c: nat)
    requires |flat| == Mul(rows, cols)
    requires r < rows && c < cols
    ensures Mul(r, cols) + c < |flat| && Reshape(flat, rows, cols)[r][c] == flat[Mul(r, cols) + c]
    decreases rows
  {
    if r > 0 {
      ReshapeAt(flat[cols..], rows - 1, cols, r - 1, c);
    }
  }

  /** `np.transpose(a)` of a matrix with `cols` columns. The column count is
      explicit because a matrix without rows still has a shape. */
  function Transpose(a: seq<seq<real>>, cols: nat): (t: seq<seq<real>>)
    requires IsMatrix(a, |a|, cols)
    ensures IsMatrix(t, cols, |a|)
    ensures forall c, r :: 0 <= c < cols && 0 <= r < |a| ==> t[c][r] == a[r][c]
  {
    seq(cols, c requires 0 <= c < cols => seq(|a|, r requires 0 <= r < |a| => a[r][c]))
  }

  /** Rows laid end to end (the inverse of `Reshape`). */
  function Flatten(a: seq<seq<real>>): seq<real>
  {
    if |a| == 0 then [] else a[0] + Flatten(a[1..])
  }

  lemma {:induction false} TransposeTwice(a: seq<seq<real>>, rows: nat, cols: nat)
    requires IsMatrix(a, rows, cols)
    ensures Transpose(Transpose(a, cols), rows) == a
  {
    var t := Transpose(Transpose(a, cols), rows);
    assert |t| == rows;
    forall r | 0 <= r < rows
      ensures t[r] == a[r]
    {
      assert |t[r]| == cols == |a[r]|;
      forall c | 0 <= c < cols ensures t[r][c] == a[r][c] {
        assert t[r][c] == Transpose(a, cols)[c][r];
      }
    }
  }

  lemma {:induction false} ReshapeFlatten(a: seq<seq<real>>, rows: nat, cols: nat)
    requires IsMatrix(a, rows, cols)
    ensures |Flatten(a)| == Mul(rows, cols)
    ensures Reshape(Flatten(a), rows, cols) == a
    decreases rows
  {
    if rows > 0 {
      ReshapeFlatten(a[1..], rows - 1, cols);
      assert Flatten(a)[..cols] == a[0];
      assert Flatten(a)[cols..] == Flatten(a[1..]);
      assert a == [a[0]] + a[1..];
    }
  }

  lemma {:induction false} FlattenReshape(flat: seq<real>, rows: nat, cols: nat)
    requires |flat| == Mul(rows, cols)
    ensures Flatten(Reshape(flat, rows, cols)) == flat
    decreases rows
  {
    if rows > 0 {
      FlattenReshape(flat[cols..], rows - 1, cols);
      var a := Reshape(flat, rows, cols);
      assert a[1..] == Reshape(flat[cols..], rows - 1, cols);
      assert flat == flat[..cols] + flat[cols..];
    } else {
      assert flat == [];
    }
  }

  // ---------------------------------------------------------------------
  // The positional layout of a dataset file
  // ---------------------------------------------------------------------

  /** The instance the reader builds once it knows `m` and `n` and has
      enough words: `m` interleaved (capacity, fixed cost) pairs after the
      two counts, then `n` demands, then the facility-major `m`×`n` cost
      matrix, stored transposed. */
  function Layout(t: seq<real>, m: nat, n: nat): Data
    requires |t| >= TokenCount(m, n)
  {
    var base := 2 + 2 * m + n;
    Data(
      Range(n),
      Range(m),
      seq(n, i requires 0 <= i < n => t[2 + 2 * m + i]),
      seq(m, j requires 0 <= j < m => t[2 + 2 * j]),
      seq(m, j requires 0 <= j < m => t[3 + 2 * j]),
      Transpose(Reshape(t[base .. base + Mul(m, n)], m, n), n))
  }

  /** The least position in `lo..hi` whose value `int()` rejects, or `hi`. */
  function FirstNonInteger(t: seq<real>, lo: nat, hi: nat): (p: nat)
    requires lo <= hi <= |t|
    ensures lo <= p <= hi
    ensures forall q :: lo <= q < p ==> IsInteger(t[q])
    ensures p < hi ==> !IsInteger(t[p])
    decreases hi - lo
  {
    if lo == hi then hi
    else if !IsInteger(t[lo]) then lo
    else FirstNonInteger(t, lo + 1, hi)
  }

  /** What `read_dataset` returns for the word sequence `t`: the words are
      consumed front to back, so the error reported is the first one met. */
  function Parse(t: seq<real>): Result<Data>
  {
    if |t| == 0 then Err(Exhausted(0))
    else if !IsInteger(t[0]) then Err(NotAnInteger(0))
    else if t[0] < 0.0 then Err(NegativeCount(0))
    else if |t| == 1 then Err(Exhausted(1))
    else if !IsInteger(t[1]) then Err(NotAnInteger(1))
    else if t[1] < 0.0 then Err(NegativeCount(1))
    else ParseBody(t, Count(t[0]), Count(t[1]))
  }

  /** The rest of `Parse`, once the counts `m` and `n` have been read. */
  function ParseBody(t: seq<real>, m: nat, n: nat): Result<Data>
    requires |t| >= 2
  {
    var pairsEnd := PairsEnd(t, m);
    var p := FirstNonInteger(t, 2, pairsEnd);
    if p < pairsEnd then Err(NotAnInteger(p))
    else if |t| < TokenCount(m, n) then Err(Exhausted(|t|))
    else Ok(Layout(t, m, n))
  }

  /** The word sequences the reader accepts, stated without the reader. */
  predicate WellFormed(t: seq<real>)
  {
    && |t| >= 2
    && IsCount(t[0])
    && IsCount(t[1])
    && |t| >= TokenCount(Count(t[0]), Count(t[1]))
    && forall p :: 2 <= p < 2 + 2 * Count(t[0]) ==> IsInteger(t[p])
  }

  lemma FirstNonIntegerIs(t: seq<real>, lo: nat, hi: nat, p: nat)
    requires lo <= p <= hi <= |t|
    requires forall q :: lo <= q < p ==> IsInteger(t[q])
    requires p < hi ==> !IsInteger(t[p])
    ensures FirstNonInteger(t, lo, hi) == p
  {
  }

  // ---------------------------------------------------------------------
  // The reader
  // ---------------------------------------------------------------------

  /** The `word_reader` generator as seen by `read_dataset`: a cursor over
      the words, each `next` handing out one word or failing at the end. */
  class WordStream {
    const words: seq<real>
    var pos: nat

    ghost predicate Valid()
      reads this
    {
      pos <= |words|
    }

    constructor (words: seq<real>)
      ensures Valid()
      ensures this.words == words && pos == 0
    {
      this.words := words;
      pos := 0;
    }

    /** `next(word)`: `None` stands for StopIteration. */
    method Next() returns (w: Option<real>)
      requires Valid()
      modifies this
      ensures Valid()
      ensures old(pos) < |words| ==> w == Some(words[old(pos)]) && pos == old(pos) + 1
      ensures old(pos) == |words| ==> w == None && pos == old(pos)
    {
      if pos < |words| {
        w := Some(words[pos]);
        pos := pos + 1;
      } else {
        w := None;
      }
    }
  }

  /** `[float(next(word)) for _ in range(count)]`: the next `count` words,
      or `None` once the words run out. */
  method ReadValues(word: WordStream, count: nat) returns (values: Option<seq<real>>)
    requires word.Valid()
    modifies word
    ensures word.Valid()
    ensures old(word.pos) + count <= |word.words| ==>
              values == Some(word.words[old(word.pos) .. old(word.pos) + count])
              && word.pos == old(word.pos) + count
    ensures old(word.pos) + count > |word.words| ==> values == None && word.pos == |word.words|
  {
    var collected: seq<real> := [];
    var k := 0;
    while k < count
      invariant 0 <= k <= count
      invariant word.Valid() && word.pos == old(word.pos) + k
      invariant collected == word.words[old(word.pos) .. word.pos]
    {
      var w := word.Next();
      if w.None? { return None; }
      collected := collected + [w.value];
      k := k + 1;
    }
    values := Some(collected);
  }

  /** The end of the (capacity, fixed cost) run for `m` facilities, cut
      short where the words end. */
  function PairsEnd(t: seq<real>, m: nat): nat
  {
    if 2 + 2 * m <= |t| then 2 + 2 * m else |t|
  }

  /** The loop that appends one capacity and one fixed cost per facility,
      starting right after the two counts. */
  method ReadPairs(word: WordStream, count: nat) returns (r: Result<(seq<real>, seq<real>)>)
    requires word.Valid() && word.pos == 2
    modifies word
    ensures word.Valid()
    ensures var p := FirstNonInteger(word.words, 2, PairsEnd(word.words, count));
            if p < PairsEnd(word.words, count) then r == Err(NotAnInteger(p))
            else if |word.words| < 2 + 2 * count then r == Err(Exhausted(|word.words|))
            else && r.Ok?
                 && word.pos == 2 + 2 * count
                 && |r.value.0| == count && |r.value.1| == count
                 && (forall k :: 0 <= k < count ==> r.value.0[k] == word.words[2 + 2 * k])
                 && (forall k :: 0 <= k < count ==> r.value.1[k] == word.words[3 + 2 * k])
  {
    ghost var pairsEnd := PairsEnd(word.words, count);
    var capacities: seq<real> := [];
    var fixedCosts: seq<real> := [];
    var j := 0;
    while j < count
      invariant 0 <= j <= count
      invariant word.Valid() && word.pos == 2 + 2 * j
      invariant |capacities| == j && |fixedCosts| == j
      invariant forall k :: 0 <= k < j ==> capacities[k] == word.words[2 + 2 * k]
      invariant forall k :: 0 <= k < j ==> fixedCosts[k] == word.words[3 + 2 * k]
      invariant forall p :: 2 <= p < 2 + 2 * j ==> IsInteger(word.words[p])
    {
      var capacity := word.Next();
      if capacity.None? {
        FirstNonIntegerIs(word.words, 2, pairsEnd, pairsEnd);
        return Err(Exhausted(word.pos));
      }
      if !IsInteger(capacity.value) {
        FirstNonIntegerIs(word.words, 2, pairsEnd, 2 + 2 * j);
        return Err(NotAnInteger(2 + 2 * j));
      }
      var fixedCost := word.Next();
      if fixedCost.None? {
        FirstNonIntegerIs(word.words, 2, pairsEnd, pairsEnd);
        return Err(Exhausted(word.pos));
      }
      if !IsInteger(fixedCost.value) {
        FirstNonIntegerIs(word.words, 2, pairsEnd, 3 + 2 * j);
        return Err(NotAnInteger(3 + 2 * j));
      }
      capacities := capacities + [capacity.value];
      fixedCosts := fixedCosts + [fixedCost.value];
      j := j + 1;
    }
    FirstNonIntegerIs(word.words, 2, pairsEnd, pairsEnd);
    r := Ok((capacities, fixedCosts));
  }

  /** `read_dataset` on the words of a file, already converted to numbers. */
  method ReadDataset(words: seq<real>) returns (r: Result<Data>)
    ensures r == Parse(words)
  {
    var word := new WordStream(words);

    // the number of facilities and customers
    var first := word.Next();
    if first.None? { return Err(Exhausted(0)); }
    if !IsInteger(first.value) { return Err(NotAnInteger(0)); }
    if first.value < 0.0 { return Err(NegativeCount(0)); }
    var second := word.Next();
    if second.None? { return Err(Exhausted(1)); }
    if !IsInteger(second.value) { return Err(NotAnInteger(1)); }
    if second.value < 0.0 { return Err(NegativeCount(1)); }
    var numFacilities := Count(first.value);
    var numCustomers := Count(second.value);
    r := ReadBody(word, numFacilities, numCustomers);
  }

  /** The rest of `read_dataset` once the counts are known. */
  method ReadBody(word: WordStream, numFacilities: nat, numCustomers: nat) returns (r: Result<Data>)
    requires word.Valid() && word.pos == 2
    modifies word
    ensures r == ParseBody(word.words, numFacilities, numCustomers)
  {
    ghost var words, m, n := word.words, numFacilities, numCustomers;

    // facility capacities and fixed costs, one pair per facility
    var pairs := ReadPairs(word, numFacilities);
    if pairs.Err? { return Err(pairs.error); }
    var capacities, fixedCosts := pairs.value.0, pairs.value.1;

    // customer demands
    var demands := ReadValues(word, numCustomers);
    if demands.None? { return Err(Exhausted(|word.words|)); }

    // the facility-major cost matrix, as one flat run of m * n words
    MulIsProduct(m, n);
    var flat := ReadValues(word, numFacilities * numCustomers);
    if flat.None? { return Err(Exhausted(|word.words|)); }
    var shipmentCosts := Transpose(Reshape(flat.value, numFacilities, numCustomers), numCustomers);

    r := Ok(Data(Range(numCustomers), Range(numFacilities), demands.value, capacities, fixedCosts, shipmentCosts));
    LayoutIs(words, m, n, demands.value, capacities, fixedCosts, flat.value);
  }

  /** The sequences `ReadDataset` collects make up `Layout`. */
  lemma LayoutIs(t: seq<real>, m: nat, n: nat,
                 demands: seq<real>, capacities: seq<real>, fixedCosts: seq<real>, flat: seq<real>)
    requires |t| >= TokenCount(m, n)
    requires demands == t[2 + 2 * m .. 2 + 2 * m + n]
    requires |capacities| == m && forall k :: 0 <= k < m ==> capacities[k] == t[2 + 2 * k]
    requires |fixedCosts| == m && forall k :: 0 <= k < m ==> fixedCosts[k] == t[3 + 2 * k]
    requires flat == t[2 + 2 * m + n .. 2 + 2 * m + n + Mul(m, n)]
    ensures Layout(t, m, n)
            == Data(Range(n), Range(m), demands, capacities, fixedCosts, Transpose(Reshape(flat, m, n), n))
  {
    assert demands == seq(n, i requires 0 <= i < n => t[2 + 2 * m + i]);
    assert capacities == seq(m, j requires 0 <= j < m => t[2 + 2 * j]);
    assert fixedCosts == seq(m, j requires 0 <= j < m => t[3 + 2 * j]);
  }

  // ---------------------------------------------------------------------
  // What the reader promises
  // ---------------------------------------------------------------------

  /** Every field of a successfully read instance comes from its fixed
      place in the word sequence, and the instance is well-dimensioned. */
  lemma ParseFields(t: seq<real>)
    requires Parse(t).Ok?
    ensures var d := Parse(t).value;
            var m, n := |d.J|, |d.I|;
            && d.Valid()
            && |t| >= TokenCount(m, n)
            && t[0] == m as real && t[1] == n as real
            && (forall j :: 0 <= j < m ==> d.capacities[j] == t[2 + 2 * j])
            && (forall j :: 0 <= j < m ==> d.fixedCosts[j] == t[3 + 2 * j])
            && (forall i :: 0 <= i < n ==> d.demands[i] == t[2 + 2 * m + i])
            && d.shipmentCosts == Transpose(Reshape(t[2 + 2 * m + n .. 2 + 2 * m + n + Mul(m, n)], m, n), n)
  {
    var m, n := Count(t[0]), Count(t[1]);
    assert Parse(t) == Ok(Layout(t, m, n));
  }

  /** The cost from facility `j` to customer `i` is word `2 + 2m + n + j·n + i`:
      the matrix in the file is facility-major and is stored transposed. */
  lemma ParseCostAt(t: seq<real>, i: nat, j: nat)
    requires Parse(t).Ok?
    requires i < |Parse(t).value.I| && j < |Parse(t).value.J|
    ensures var d := Parse(t).value;
            var m, n := |d.J|, |d.I|;
            && j * n + i < m * n
            && 2 + 2 * m + n + j * n + i < |t|
            && d.shipmentCosts[i][j] == t[2 + 2 * m + n + j * n + i]
  {
    var m, n := Count(t[0]), Count(t[1]);
    assert Parse(t) == Ok(Layout(t, m, n));
    LayoutCostAt(t, m, n, i, j);
    MulIsProduct(j, n);
    MulIsProduct(m, n);
  }

  lemma LayoutCostAt(t: seq<real>, m: nat, n: nat, i: nat, j: nat)
    requires |t| >= TokenCount(m, n)
    requires i < n && j < m
    ensures Mul(j, n) + i < Mul(m, n)
    ensures Layout(t, m, n).shipmentCosts[i][j] == t[2 + 2 * m + n + Mul(j, n) + i]
  {
    var base := 2 + 2 * m + n;
    var flat := t[base .. base + Mul(m, n)];
    var costs := Reshape(flat, m, n);
    assert Layout(t, m, n).shipmentCosts == Transpose(costs, n);
    ReshapeAt(flat, m, n, j, i);
    var k := Mul(j, n) + i;
    assert costs[j][i] == flat[k] == t[base + k];
  }

  /** The reader succeeds exactly on well-formed word sequences; in
      particular fewer than `TokenCount(m, n)` words is a failure. */
  lemma ParseAccepts(t: seq<real>)
    ensures Parse(t).Ok? <==> WellFormed(t)
  {
    if WellFormed(t) {
      var m := Count(t[0]);
      FirstNonIntegerIs(t, 2, PairsEnd(t, m), 2 + 2 * m);
    }
  }

  /** Each error names the position where reading stopped: running out of
      words happens at the end, and `int()` fails on the first value it
      cannot take. */
  lemma ParseErrors(t: seq<real>)
    requires Parse(t).Err?
    ensures var e := Parse(t).error;
            && (e.Exhausted? ==> e.pos == |t|)
            && (e.NotAnInteger? ==> e.pos < |t| && !IsInteger(t[e.pos])
                                    && forall q :: 0 <= q < e.pos ==> IsInteger(t[q]))
            && (e.NegativeCount? ==> e.pos < 2 && e.pos < |t| && t[e.pos] < 0.0)
  {
  }

  /** Words after the ones the reader needed are never read: appending
      words changes neither a successful read nor a failure at a word that
      was read (`int()` rejecting it, or a negative count). Only running
      out of words can be cured by more words. */
  lemma ParseIgnoresTrailing(t: seq<real>, extra: seq<real>)
    requires Parse(t).Ok? || !Parse(t).error.Exhausted?
    ensures Parse(t + extra) == Parse(t)
  {
    var u := t + extra;
    if |t| >= 2 && IsCount(t[0]) && IsCount(t[1]) {
      var m, n := Count(t[0]), Count(t[1]);
      assert u[0] == t[0] && u[1] == t[1];
      assert Parse(t) == ParseBody(t, m, n) && Parse(u) == ParseBody(u, m, n);
      var p := FirstNonInteger(t, 2, PairsEnd(t, m));
      if p < PairsEnd(t, m) {
        assert forall q :: 2 <= q < p ==> u[q] == t[q];
        FirstNonIntegerIs(u, 2, PairsEnd(u, m), p);
      } else {
        assert PairsEnd(u, m) == PairsEnd(t, m) == 2 + 2 * m;
        FirstNonIntegerIs(u, 2, 2 + 2 * m, 2 + 2 * m);
        LayoutIgnoresTrailing(t, extra, m, n);
      }
    } else if |t| >= 1 {
      assert u[0] == t[0];
      if |t| >= 2 {
        assert u[1] == t[1];
      }
    }
  }

  lemma LayoutIgnoresTrailing(t: seq<real>, extra: seq<real>, m: nat, n: nat)
    requires |t| >= TokenCount(m, n)
    ensures Layout(t + extra, m, n) == Layout(t, m, n)
  {
    var u := t + extra;
    var base := 2 + 2 * m + n;
    assert u[base .. base + Mul(m, n)] == t[base .. base + Mul(m, n)];
  }

  /** Capacities and fixed costs side by side, one pair per facility. */
  function Interleave(a: seq<real>, b: seq<real>): (r: seq<real>)
    requires |a| == |b|
    ensures |r| == 2 * |a|
    ensures forall k :: 0 <= k < |a| ==> r[2 * k] == a[k] && r[2 * k + 1] == b[k]
  {
    if |a| == 0 then [] else [a[0], b[0]] + Interleave(a[1..], b[1..])
  }

  /** An instance written in the file layout the reader consumes. */
  function Serialize(d: Data): seq<real>
    requires d.Valid()
  {
    [|d.J| as real, |d.I| as real]
    + Interleave(d.capacities, d.fixedCosts)
    + d.demands
    + Flatten(Transpose(d.shipmentCosts, |d.J|))
  }

  /** The (capacity, fixed cost) run of a word sequence, read pair by pair. */
  lemma {:induction false} InterleaveSlice(t: seq<real>, lo: nat, a: seq<real>, b: seq<real>)
    requires |a| == |b| && lo + 2 * |a| <= |t|
    requires forall k :: 0 <= k < |a| ==> a[k] == t[lo + 2 * k] && b[k] == t[lo + 2 * k + 1]
    ensures Interleave(a, b) == t[lo .. lo + 2 * |a|]
    decreases |a|
  {
    if |a| > 0 {
      forall k | 0 <= k < |a| - 1
        ensures a[1..][k] == t[lo + 2 + 2 * k] && b[1..][k] == t[lo + 2 + 2 * k + 1]
      {
        assert a[k + 1] == t[lo + 2 * (k + 1)];
        assert b[k + 1] == t[lo + 2 * (k + 1) + 1];
      }
      InterleaveSlice(t, lo + 2, a[1..], b[1..]);
      assert a[0] == t[lo + 2 * 0] && b[0] == t[lo + 2 * 0 + 1];
      var hi := lo + 2 * |a|;
      assert lo + 2 + 2 * |a[1..]| == hi;
      assert Interleave(a, b) == [a[0], b[0]] + Interleave(a[1..], b[1..]);
      assert t[lo .. hi] == [t[lo], t[lo + 1]] + t[lo + 2 .. hi];
    }
  }

  lemma {:induction false} InterleaveIntegral(a: seq<real>, b: seq<real>)
    requires |a| == |b|
    requires forall k :: 0 <= k < |a| ==> IsInteger(a[k]) && IsInteger(b[k])
    ensures forall p :: 0 <= p < 2 * |a| ==> IsInteger(Interleave(a, b)[p])
    decreases |a|
  {
    if |a| > 0 {
      assert forall k :: 0 <= k < |a| - 1 ==> a[1..][k] == a[k + 1] && b[1..][k] == b[k + 1];
      InterleaveIntegral(a[1..], b[1..]);
      var r := Interleave(a, b);
      assert r == [a[0], b[0]] + Interleave(a[1..], b[1..]);
      forall p | 0 <= p < 2 * |a|
        ensures IsInteger(r[p])
      {
        if p >= 2 {
          assert r[p] == Interleave(a[1..], b[1..])[p - 2];
        }
      }
    }
  }

  /** Where each part of a written instance lands. */
  lemma SerializeSlices(d: Data)
    requires d.Valid()
    ensures var t, m, n := Serialize(d), |d.J|, |d.I|;
            var base := 2 + 2 * m + n;
            && |t| == TokenCount(m, n)
            && t[0] == m as real && t[1] == n as real
            && t[2 .. 2 + 2 * m] == Interleave(d.capacities, d.fixedCosts)
            && t[2 + 2 * m .. base] == d.demands
            && t[base .. base + Mul(m, n)] == Flatten(Transpose(d.shipmentCosts, m))
  {
    var m, n := |d.J|, |d.I|;
    ReshapeFlatten(Transpose(d.shipmentCosts, m), m, n);
  }

  /** Writing an instance and reading it back gives the same instance. */
  lemma ParseSerialize(d: Data)
    requires d.Valid()
    requires forall j :: 0 <= j < |d.J| ==> IsInteger(d.capacities[j]) && IsInteger(d.fixedCosts[j])
    ensures Parse(Serialize(d)) == Ok(d)
  {
    var t := Serialize(d);
    var m, n := |d.J|, |d.I|;
    SerializeSlices(d);
    SerializeIntegral(d);
    assert Count(t[0]) == m && Count(t[1]) == n;
    FirstNonIntegerIs(t, 2, 2 + 2 * m, 2 + 2 * m);
    assert Parse(t) == Ok(Layout(t, m, n));
    LayoutOfSerialize(d);
  }

  /** The capacities and fixed costs of a written instance are the words
      `int()` reads, so they must be integral. */
  lemma SerializeIntegral(d: Data)
    requires d.Valid()
    requires forall j :: 0 <= j < |d.J| ==> IsInteger(d.capacities[j]) && IsInteger(d.fixedCosts[j])
    ensures 2 + 2 * |d.J| <= |Serialize(d)|
    ensures forall p :: 2 <= p < 2 + 2 * |d.J| ==> IsInteger(Serialize(d)[p])
  {
    var t := Serialize(d);
    SerializeSlices(d);
    var pairs := Interleave(d.capacities, d.fixedCosts);
    InterleaveIntegral(d.capacities, d.fixedCosts);
    assert forall p :: 2 <= p < 2 + 2 * |d.J| ==> t[p] == pairs[p - 2];
  }

  /** The layout of a written instance is that instance. */
  lemma LayoutOfSerialize(d: Data)
    requires d.Valid()
    ensures |Serialize(d)| >= TokenCount(|d.J|, |d.I|)
    ensures Layout(Serialize(d), |d.J|, |d.I|) == d
  {
    SerializeSlices(d);
    LayoutFromParts(Serialize(d), d);
  }

  /** Words holding an instance's parts at their places lay out as that instance. */
  lemma LayoutFromParts(t: seq<real>, d: Data)
    requires d.Valid()
    requires var m, n := |d.J|, |d.I|;
             var base := 2 + 2 * m + n;
             && |t| >= TokenCount(m, n)
             && t[2 .. 2 + 2 * m] == Interleave(d.capacities, d.fixedCosts)
             && t[2 + 2 * m .. base] == d.demands
             && t[base .. base + Mul(m, n)] == Flatten(Transpose(d.shipmentCosts, m))
    ensures Layout(t, |d.J|, |d.I|) == d
  {
    var m, n := |d.J|, |d.I|;
    PairsFromSlice(t, d.capacities, d.fixedCosts);
    var costs := Transpose(d.shipmentCosts, m);
    ReshapeFlatten(costs, m, n);
    TransposeTwice(d.shipmentCosts, n, m);
    LayoutIs(t, m, n, d.demands, d.capacities, d.fixedCosts, Flatten(costs));
  }

  lemma PairsFromSlice(t: seq<real>, a: seq<real>, b: seq<real>)
    requires |a| == |b| && 2 + 2 * |a| <= |t|
    requires t[2 .. 2 + 2 * |a|] == Interleave(a, b)
    ensures forall k :: 0 <= k < |a| ==> a[k] == t[2 + 2 * k] && b[k] == t[3 + 2 * k]
  {
    var pairs := Interleave(a, b);
    forall k | 0 <= k < |a|
      ensures a[k] == t[2 + 2 * k] && b[k] == t[3 + 2 * k]
    {
      assert t[2 + 2 * k] == pairs[2 * k];
      assert t[3 + 2 * k] == pairs[2 * k + 1];
    }
  }

  /** Transposing back and flattening recovers the flat cost run. */
  lemma CostsRoundTrip(flat: seq<real>, m: nat, n: nat)
    requires |flat| == Mul(m, n)
    ensures Flatten(Transpose(Transpose(Reshape(flat, m, n), n), m)) == flat
  {
    TransposeTwice(Reshape(flat, m, n), m, n);
    FlattenReshape(flat, m, n);
  }

  lemma PrefixParts(t: seq<real>, m: nat, n: nat)
    requires |t| >= TokenCount(m, n)
    ensures var base := 2 + 2 * m + n;
            t[..TokenCount(m, n)] == [t[0], t[1]] + t[2 .. 2 + 2 * m] + t[2 + 2 * m .. base] + t[base .. base + Mul(m, n)]
  {
  }

  /** Reading a word sequence and writing the instance back reproduces the
      words the reader consumed. */
  lemma SerializeParse(t: seq<real>)
    requires Parse(t).Ok?
    ensures Parse(t).value.Valid()
    ensures Serialize(Parse(t).value) == t[..TokenCount(|Parse(t).value.J|, |Parse(t).value.I|)]
  {
    var m, n := Count(t[0]), Count(t[1]);
    assert Parse(t) == Ok(Layout(t, m, n));
    SerializeLayout(t, m, n);
  }

  lemma SerializeLayout(t: seq<real>, m: nat, n: nat)
    requires |t| >= TokenCount(m, n)
    requires t[0] == m as real && t[1] == n as real
    ensures Layout(t, m, n).Valid()
    ensures Serialize(Layout(t, m, n)) == t[..TokenCount(m, n)]
  {
    var d := Layout(t, m, n);
    var base := 2 + 2 * m + n;
    LayoutParts(t, m, n);
    PrefixParts(t, m, n);
    calc {
      Serialize(d);
      [m as real, n as real] + Interleave(d.capacities, d.fixedCosts) + d.demands + Flatten(Transpose(d.shipmentCosts, m));
      [t[0], t[1]] + t[2 .. 2 + 2 * m] + t[2 + 2 * m .. base] + t[base .. base + Mul(m, n)];
    }
  }

  /** Each field of `Layout`, written back, is the slice it was read from. */
  lemma LayoutParts(t: seq<real>, m: nat, n: nat)
    requires |t| >= TokenCount(m, n)
    ensures var d, base := Layout(t, m, n), 2 + 2 * m + n;
            && d.Valid() && |d.J| == m && |d.I| == n
            && Interleave(d.capacities, d.fixedCosts) == t[2 .. 2 + 2 * m]
            && d.demands == t[2 + 2 * m .. base]
            && Flatten(Transpose(d.shipmentCosts, m)) == t[base .. base + Mul(m, n)]
  {
    LayoutPairs(t, m, n);
    LayoutCosts(t, m, n);
  }

  lemma LayoutPairs(t: seq<real>, m: nat, n: nat)
    requires |t| >= TokenCount(m, n)
    ensures var d := Layout(t, m, n);
            Interleave(d.capacities, d.fixedCosts) == t[2 .. 2 + 2 * m]
  {
    var d := Layout(t, m, n);
    InterleaveSlice(t, 2, d.capacities, d.fixedCosts);
  }

  lemma LayoutCosts(t: seq<real>, m: nat, n: nat)
    requires |t| >= TokenCount(m, n)
    ensures var base := 2 + 2 * m + n;
            Flatten(Transpose(Layout(t, m, n).shipmentCosts, m)) == t[base .. base + Mul(m, n)]
  {
    var base := 2 + 2 * m + n;
    CostsRoundTrip(t[base .. base + Mul(m, n)], m, n);
  }
}
