/** Cells, rows and frames: the tabular values the pipeline reads and produces,
    and the single failure outcome every stage collapses its errors into. */
module Tables {

  /** One cell of a data frame. `Missing` is pandas' NaN / None. */
  datatype Value = Num(n: int) | Float(x: real) | Str(s: string) | Missing

  /** Every failure of the pipeline (a missing column, an unparsable date, a
      rejected model) is one and the same outcome. */
  datatype Result<+T> = Ok(value: T) | Err {
    predicate IsFailure() { Err? }

    function PropagateFailure<U>(): Result<U>
      requires Err?
    {
      Err
    }

    function Extract(): T
      requires Ok?
    {
      value
    }
  }

  datatype Option<+T> = None | Some(value: T) {
    predicate IsFailure() { None? }

    function PropagateFailure<U>(): Option<U>
      requires None?
    {
      None
    }

    function Extract(): T
      requires Some?
    {
      value
    }
  }

  /** A row maps column names to cells. */
  type Row = map<string, Value>

  /** A data frame: its set of column names and its rows in order. */
  datatype Frame = Frame(columns: set<string>, rows: seq<Row>)

  /** Every row of a frame has exactly the frame's columns. */
  ghost predicate WellFormed(f: Frame) {
    forall i :: 0 <= i < |f.rows| ==> f.rows[i].Keys == f.columns
  }

  predicate Distinct<T(==)>(s: seq<T>) {
    forall i, j :: 0 <= i < j < |s| ==> s[i] != s[j]
  }

  function Elements<T>(s: seq<T>): set<T> {
    set x | x in s
  }

  /** `np.c_[x, y]`: each row of `x` followed by the matching entry of `y` as
      a new last column. */
  function AppendColumn<T>(x: seq<seq<T>>, y: seq<T>): (m: seq<seq<T>>)
    requires |x| == |y|
    ensures |m| == |x|
    ensures forall i :: 0 <= i < |m| ==>
      |m[i]| == |x[i]| + 1 && m[i][..|x[i]|] == x[i] && m[i][|x[i]|] == y[i]
  {
    seq(|x|, i requires 0 <= i < |x| => x[i] + [y[i]])
  }

  /** A sequence without repetitions has as many elements as its set. */
  lemma {:induction false} DistinctCardinality<T>(s: seq<T>)
    requires Distinct(s)
    ensures |Elements(s)| == |s|
  {
    if s != [] {
      DistinctCardinality(s[1..]);
      assert Elements(s) == Elements(s[1..]) + {s[0]};
      assert s[0] !in Elements(s[1..]);
    }
  }

  /** Splitting a sequence without repetitions gives two sequences without
      repetitions that share no element. */
  lemma DistinctConcat<T>(a: seq<T>, b: seq<T>)
    requires Distinct(a + b)
    ensures Distinct(a) && Distinct(b)
    ensures Elements(a) !! Elements(b)
  {
    forall i, j | 0 <= i < j < |a|
      ensures a[i] != a[j]
    {
      assert (a + b)[i] == a[i] && (a + b)[j] == a[j];
    }
    forall i, j | 0 <= i < j < |b|
      ensures b[i] != b[j]
    {
      assert (a + b)[|a| + i] == b[i] && (a + b)[|a| + j] == b[j];
    }
    forall x | x in Elements(a)
      ensures x !in Elements(b)
    {
      var i :| 0 <= i < |a| && a[i] == x;
      forall j | 0 <= j < |b|
        ensures b[j] != x
      {
        assert (a + b)[i] == a[i] && (a + b)[|a| + j] == b[j];
      }
    }
  }

  /** `f` tells the elements of `s` apart. */
  ghost predicate InjectiveOn<T, U>(s: set<T>, f: T -> U) {
    forall a, b :: a in s && b in s && f(a) == f(b) ==> a == b
  }

  /** The set of values `f` takes on `s`. */
  function Image<T, U>(s: set<T>, f: T -> U): set<U> {
    set x | x in s :: f(x)
  }

  /** A function that tells the elements of a set apart maps it onto a set
      of the same size. */
  lemma {:induction false} InjectiveImageCardinality<T, U>(s: set<T>, f: T -> U)
    requires InjectiveOn(s, f)
    ensures |Image(s, f)| == |s|
    decreases s
  {
    if s != {} {
      var x :| x in s;
      var rest := s - {x};
      InjectiveImageCardinality(rest, f);
      assert Image(s, f) == Image(rest, f) + {f(x)};
    }
  }

  /** The names of an ordered dictionary, in order. */
  function Names<V>(d: seq<(string, V)>): (names: seq<string>)
    ensures |names| == |d| && forall i :: 0 <= i < |d| ==> names[i] == d[i].0
  {
    seq(|d|, i requires 0 <= i < |d| => d[i].0)
  }

  /** The values of an ordered dictionary, in order. */
  function Values<V>(d: seq<(string, V)>): (values: seq<V>)
    ensures |values| == |d| && forall i :: 0 <= i < |d| ==> values[i] == d[i].1
  {
    seq(|d|, i requires 0 <= i < |d| => d[i].1)
  }

  /** `d[name]` on an ordered dictionary: the value of the first entry with
      that name, or nothing when no entry has it. */
  function Find<V>(d: seq<(string, V)>, name: string): (r: Option<V>)
    ensures r.None? <==> forall i :: 0 <= i < |d| ==> d[i].0 != name
    ensures r.Some? ==> exists i :: 0 <= i < |d| && d[i] == (name, r.value)
  {
    if d == [] then None
    else if d[0].0 == name then Some(d[0].1)
    else Find(d[1..], name)
  }

  /** A lookup finds an entry exactly when the name is one of the
      dictionary's names. */
  lemma FoundIffNamed<V>(d: seq<(string, V)>, name: string)
    ensures Find(d, name).Some? <==> name in Elements(Names(d))
  {
    if name in Elements(Names(d)) {
      var i :| 0 <= i < |d| && Names(d)[i] == name;
      assert d[i].0 == name;
    }
  }

  /** In a dictionary whose names are distinct, looking an entry's name up
      finds that entry. */
  lemma {:induction false} FindAt<V>(d: seq<(string, V)>, i: int)
    requires Distinct(Names(d)) && 0 <= i < |d|
    ensures Find(d, d[i].0) == Some(d[i].1)
  {
    if i > 0 {
      assert Names(d)[0] != Names(d)[i];
      assert Names(d[1..]) == Names(d)[1..];
      FindAt(d[1..], i - 1);
    }
  }
}
