/** Rows, field mappings and the INSERT statement they produce. Python dicts keep
    insertion order, so a field mapping is an ordered list of
    (legacy field, target column) pairs and is walked in that order. */
module Fields {
  import opened PyStrings
  import opened PyValues

  /** A table row: legacy field name to value. */
  type Record = map<string, Value>

  /** A field mapping in declaration order: (legacy field, target column). */
  type FieldMapping = seq<(string, string)>

  /** `record.get(key, default)`. */
  function Get(rec: Record, key: string, default: Value): Value
  {
    if key in rec then rec[key] else default
  }

  /** The test the builders apply to each mapping entry before emitting it. */
  predicate Keep(rec: Record, ignore: set<string>, p: (string, string))
  {
    p.0 in rec && p.0 !in ignore
  }

  /** The mapping entries whose legacy field the row holds and the ignore set
      does not name, in mapping order. */
  function Kept(m: FieldMapping, rec: Record, ignore: set<string>): (sel: FieldMapping)
    ensures |sel| <= |m|
    ensures forall p :: p in sel ==> p in m && Keep(rec, ignore, p)
  {
    if m == [] then []
    else
      var last := m[|m| - 1];
      Kept(m[..|m| - 1], rec, ignore) + (if Keep(rec, ignore, last) then [last] else [])
  }

  /** No entry that passes the test is dropped. */
  lemma {:induction false} KeptComplete(m: FieldMapping, rec: Record, ignore: set<string>)
    ensures forall p :: p in m && Keep(rec, ignore, p) ==> p in Kept(m, rec, ignore)
  {
    if m != [] {
      var init := m[..|m| - 1];
      KeptComplete(init, rec, ignore);
      forall p | p in m && Keep(rec, ignore, p)
        ensures p in Kept(m, rec, ignore)
      {
        if p != m[|m| - 1] {
          var j :| 0 <= j < |m| && m[j] == p;
          assert init[j] == p;
        }
      }
    }
  }

  /** A mapping none of whose entries passes the test selects nothing. */
  lemma {:induction false} KeptNone(m: FieldMapping, rec: Record, ignore: set<string>)
    requires forall p :: p in m ==> !Keep(rec, ignore, p)
    ensures Kept(m, rec, ignore) == []
  {
    if m != [] {
      KeptNone(m[..|m| - 1], rec, ignore);
    }
  }

  /** Selecting from a concatenation selects from each part in turn: the order of
      the mapping is kept. */
  lemma {:induction false} KeptAppend(a: FieldMapping, b: FieldMapping, rec: Record, ignore: set<string>)
    ensures Kept(a + b, rec, ignore) == Kept(a, rec, ignore) + Kept(b, rec, ignore)
  {
    if b == [] {
      assert a + b == a;
    } else {
      var init := b[..|b| - 1];
      assert (a + b)[..|a + b| - 1] == a + init;
      KeptAppend(a, init, rec, ignore);
    }
  }

  /** The target columns of a mapping, in order. */
  function Targets(m: FieldMapping): seq<string>
  {
    seq(|m|, k requires 0 <= k < |m| => m[k].1)
  }

  /** The literals of the selected fields of a row, in order. */
  function Literals(esc: Value -> string, rec: Record, sel: FieldMapping): seq<string>
    requires forall p :: p in sel ==> p.0 in rec
  {
    seq(|sel|, k requires 0 <= k < |sel| => esc(rec[sel[k].0]))
  }

  /** One more mapping entry adds its literal when, and only when, the entry is kept. */
  lemma LiteralsStep(esc: Value -> string, rec: Record, ignore: set<string>, m: FieldMapping, i: nat)
    requires i < |m|
    ensures Literals(esc, rec, Kept(m[..i + 1], rec, ignore))
      == Literals(esc, rec, Kept(m[..i], rec, ignore))
         + (if Keep(rec, ignore, m[i]) then [esc(rec[m[i].0])] else [])
  {
    assert m[..i + 1][..i] == m[..i];
  }

  /** One more mapping entry adds its target column when, and only when, the entry
      is kept. */
  lemma TargetsStep(rec: Record, ignore: set<string>, m: FieldMapping, i: nat)
    requires i < |m|
    ensures Targets(Kept(m[..i + 1], rec, ignore))
      == Targets(Kept(m[..i], rec, ignore)) + (if Keep(rec, ignore, m[i]) then [m[i].1] else [])
  {
    assert m[..i + 1][..i] == m[..i];
  }

  predicate Distinct<T(==)>(xs: seq<T>)
  {
    forall i, j :: 0 <= i < j < |xs| ==> xs[i] != xs[j]
  }

  /** The position of the first occurrence of `x` in `xs`. */
  function FirstIndex(xs: seq<string>, x: string): (k: nat)
    requires x in xs
    ensures k < |xs| && xs[k] == x
    ensures forall j :: 0 <= j < k ==> xs[j] != x
  {
    if xs[0] == x then 0 else 1 + FirstIndex(xs[1..], x)
  }

  /** Adding an item at the end moves no first occurrence; an item seen only
      there first occurs there. */
  lemma FirstIndexSnoc(xs: seq<string>)
    requires xs != []
    ensures var init := xs[..|xs| - 1];
      && (forall y :: y in init ==> FirstIndex(xs, y) == FirstIndex(init, y))
      && (forall y :: y in xs && y !in init ==> FirstIndex(xs, y) == |xs| - 1)
  {
    var init := xs[..|xs| - 1];
    forall y | y in init
      ensures FirstIndex(xs, y) == FirstIndex(init, y)
    {
      var a, b := FirstIndex(xs, y), FirstIndex(init, y);
      assert xs[b] == y;
      assert init[a] == y;
    }
  }

  /** `list(dict.fromkeys(xs))`: the first occurrence of each item, in the order
      of those first occurrences. */
  function Dedup(xs: seq<string>): (r: seq<string>)
    ensures forall x :: x in r <==> x in xs
    ensures Distinct(r)
    ensures forall i, j :: 0 <= i < j < |r| ==> FirstIndex(xs, r[i]) < FirstIndex(xs, r[j])
  {
    if xs == [] then []
    else
      var d := Dedup(xs[..|xs| - 1]);
      var x := xs[|xs| - 1];
      FirstIndexSnoc(xs);
      if x in d then d else d + [x]
  }

  /** Removing duplicates from a list that has none changes nothing. */
  lemma {:induction false} DedupOfDistinct(xs: seq<string>)
    requires Distinct(xs)
    ensures Dedup(xs) == xs
  {
    if xs != [] {
      var init := xs[..|xs| - 1];
      DedupOfDistinct(init);
      assert xs == init + [xs[|xs| - 1]];
    }
  }

  /** A mapping whose target columns are distinct yields distinct columns for every row. */
  lemma {:induction false} KeptTargetsDistinct(m: FieldMapping, rec: Record, ignore: set<string>)
    requires Distinct(Targets(m))
    ensures Distinct(Targets(Kept(m, rec, ignore)))
  {
    if m != [] {
      var init := m[..|m| - 1];
      var last := m[|m| - 1];
      assert Targets(init) == Targets(m)[..|m| - 1];
      KeptTargetsDistinct(init, rec, ignore);
      var before := Kept(init, rec, ignore);
      if Keep(rec, ignore, last) {
        forall k | 0 <= k < |before|
          ensures before[k].1 != last.1
        {
          assert before[k] in init;
          var j :| 0 <= j < |init| && init[j] == before[k];
          assert Targets(m)[j] == before[k].1;
          assert Targets(m)[|m| - 1] == last.1;
        }
        var t := Targets(before) + [last.1];
        assert Targets(Kept(m, rec, ignore)) == t;
        forall i, j | 0 <= i < j < |t|
          ensures t[i] != t[j]
        {
          if j == |t| - 1 {
            assert t[i] == before[i].1;
          } else {
            assert t[i] == Targets(before)[i] && t[j] == Targets(before)[j];
          }
        }
        assert Distinct(t);
      } else {
        assert Kept(m, rec, ignore) == before;
      }
    }
  }

  /** `INSERT INTO <table> (<cols>) VALUES (<vals>);` and a line break. */
  function Insert(table: string, cols: seq<string>, vals: seq<string>): string
  {
    "INSERT INTO " + table + " (" + Join(cols, ", ") + ") VALUES (" + Join(vals, ", ") + ");\n"
  }
}
