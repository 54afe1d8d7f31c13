/**
Durable stores and power cuts.

A store maps names (files, flash partitions) to contents. What a program does to it is a
plan: a sequence of operations. Renames, removals and the setting of a flag are atomic; a
copy or a plain write is not: a power cut inside it leaves the target with any content.
`Cut(plan, d, c)` says that a power cut during `plan`, started on `d`, can leave `c`.
*/
module CrashPlans {
  import opened Wrappers

  datatype Op<K, !V> =
    | Put(key: K, value: V)    // atomic and durable
    | Drop(key: K)             // remove, or nothing if the name is not there
    | Move(src: K, dst: K)     // os.replace: atomic
    | Copy(src: K, dst: K)     // shutil.copyfile: not atomic
    | Fill(key: K, value: V)   // open and write: not atomic
    | Make(src: K, dst: K, how: V -> V)   // written from what another name holds: not atomic

  function Apply<K, V>(op: Op<K, V>, d: map<K, V>): map<K, V> {
    match op
    case Put(k, v) => d[k := v]
    case Fill(k, v) => d[k := v]
    case Drop(k) => d - {k}
    case Move(src, dst) => if src in d then (d - {src})[dst := d[src]] else d
    case Copy(src, dst) => if src in d then d[dst := d[src]] else d
    case Make(src, dst, how) => if src in d then d[dst := how(d[src])] else d
  }

  /** `c` is `d` with an operation half done: its target holds anything. */
  ghost predicate Torn<K, V>(op: Op<K, V>, d: map<K, V>, c: map<K, V>) {
    match op
    case Fill(k, _) => k in c && c == d[k := c[k]]
    case Copy(src, dst) => src in d && dst in c && c == d[dst := c[dst]]
    case Make(src, dst, _) => src in d && dst in c && c == d[dst := c[dst]]
    case _ => false
  }

  function Exec<K, V>(plan: seq<Op<K, V>>, d: map<K, V>): map<K, V> {
    if plan == [] then d else Exec(plan[1..], Apply(plan[0], d))
  }

  /** A power cut during `plan` can leave `c`: before it, inside an operation, or after one. */
  ghost predicate Cut<K, V>(plan: seq<Op<K, V>>, d: map<K, V>, c: map<K, V>) {
    || c == d
    || (plan != [] && (Torn(plan[0], d, c) || Cut(plan[1..], Apply(plan[0], d), c)))
  }

  /** data to `path` through `tmp`: the path itself is never half written. */
  function WriteVia<K, V>(tmp: K, path: K, data: V): (plan: seq<Op<K, V>>) {
    [Fill(tmp, data), Move(tmp, path)]
  }

  lemma {:induction false} ExecConcat<K, V>(p: seq<Op<K, V>>, q: seq<Op<K, V>>, d: map<K, V>)
    ensures Exec(p + q, d) == Exec(q, Exec(p, d))
  {
    if p == [] {
      assert p + q == q;
    } else {
      assert (p + q)[1..] == p[1..] + q;
      ExecConcat(p[1..], q, Apply(p[0], d));
    }
  }

  lemma {:induction false} CutConcat<K, V>(p: seq<Op<K, V>>, q: seq<Op<K, V>>, d: map<K, V>, c: map<K, V>)
    ensures Cut(p + q, d, c) <==> Cut(p, d, c) || Cut(q, Exec(p, d), c)
  {
    if p == [] {
      assert p + q == q;
    } else {
      assert (p + q)[1..] == p[1..] + q;
      CutConcat(p[1..], q, Apply(p[0], d), c);
    }
  }

  lemma ExecOne<K, V>(op: Op<K, V>, d: map<K, V>)
    ensures Exec([op], d) == Apply(op, d)
  {
    assert [op][1..] == [];
  }

  lemma ExecTwo<K, V>(a: Op<K, V>, b: Op<K, V>, d: map<K, V>)
    ensures Exec([a, b], d) == Apply(b, Apply(a, d))
  {
    assert [a, b][1..] == [b];
    ExecOne(b, Apply(a, d));
  }

  lemma CutOne<K, V>(op: Op<K, V>, d: map<K, V>, c: map<K, V>)
    ensures Cut([op], d, c) <==> c == d || Torn(op, d, c) || c == Apply(op, d)
  {
    assert [op][1..] == [];
  }

  lemma CutTwo<K, V>(a: Op<K, V>, b: Op<K, V>, d: map<K, V>, c: map<K, V>)
    ensures Cut([a, b], d, c) <==>
              || c == d || Torn(a, d, c) || c == Apply(a, d)
              || Torn(b, Apply(a, d), c) || c == Apply(b, Apply(a, d))
  {
    assert [a, b][1..] == [b];
    CutOne(b, Apply(a, d), c);
  }

  /** A plan that ran to its end is one of its own cuts. */
  lemma {:induction false} ExecIsCut<K, V>(p: seq<Op<K, V>>, d: map<K, V>)
    ensures Cut(p, d, Exec(p, d))
  {
    if p != [] {
      ExecIsCut(p[1..], Apply(p[0], d));
    }
  }

  /** What a cut `WriteVia` can leave: the old or the new content of `path`, and anything in
      `tmp`. */
  lemma WriteViaCut<K, V>(tmp: K, path: K, data: V, d: map<K, V>, c: map<K, V>)
    requires tmp != path
    requires Cut(WriteVia(tmp, path, data), d, c)
    ensures c - {tmp} == d - {tmp} || c - {tmp} == (d - {tmp})[path := data]
  {
    CutTwo(Fill(tmp, data), Move(tmp, path), d, c);
  }

  lemma WriteViaExec<K, V>(tmp: K, path: K, data: V, d: map<K, V>)
    requires tmp != path
    ensures Exec(WriteVia(tmp, path, data), d) == (d - {tmp})[path := data]
  {
    ExecTwo(Fill(tmp, data), Move(tmp, path), d);
  }

  /** The names an operation can change. */
  function Keys<K, V>(op: Op<K, V>): set<K> {
    match op
    case Put(k, _) => {k}
    case Drop(k) => {k}
    case Move(src, dst) => {src, dst}
    case Copy(_, dst) => {dst}
    case Fill(k, _) => {k}
    case Make(_, dst, _) => {dst}
  }

  function AllKeys<K, V>(plan: seq<Op<K, V>>): set<K> {
    if plan == [] then {} else Keys(plan[0]) + AllKeys(plan[1..])
  }

  lemma {:induction false} AllKeysConcat<K, V>(p: seq<Op<K, V>>, q: seq<Op<K, V>>)
    ensures AllKeys(p + q) == AllKeys(p) + AllKeys(q)
  {
    if p == [] {
      assert p + q == q;
    } else {
      assert (p + q)[1..] == p[1..] + q;
      AllKeysConcat(p[1..], q);
    }
  }

  predicate SameAt<K, V(==)>(c: map<K, V>, d: map<K, V>, k: K) {
    (k in c <==> k in d) && (k in c ==> c[k] == d[k])
  }

  /** A cut plan leaves every other name alone. */
  lemma {:induction false} CutKeeps<K, V>(plan: seq<Op<K, V>>, d: map<K, V>, c: map<K, V>, k: K)
    requires Cut(plan, d, c) && k !in AllKeys(plan)
    ensures SameAt(c, d, k)
  {
    if c != d && !Torn(plan[0], d, c) {
      CutKeeps(plan[1..], Apply(plan[0], d), c, k);
    }
  }

  lemma ExecKeeps<K, V>(plan: seq<Op<K, V>>, d: map<K, V>, k: K)
    requires k !in AllKeys(plan)
    ensures SameAt(Exec(plan, d), d, k)
  {
    ExecIsCut(plan, d);
    CutKeeps(plan, d, Exec(plan, d), k);
  }

  /** A plan that fails at its operation `n`, which may leave junk in its target. */
  function Broken<K, V>(plan: seq<Op<K, V>>, n: nat, junk: V, d: map<K, V>): map<K, V>
    requires n < |plan|
  {
    var before := Exec(plan[..n], d);
    match plan[n]
    case Fill(k, _) => before[k := junk]
    case Copy(src, dst) => if src in before then before[dst := junk] else before
    case Make(src, dst, _) => if src in before then before[dst := junk] else before
    case _ => before
  }

  lemma BrokenIsCut<K, V>(plan: seq<Op<K, V>>, n: nat, junk: V, d: map<K, V>)
    requires n < |plan|
    ensures Cut(plan, d, Broken(plan, n, junk, d))
  {
    var c := Broken(plan, n, junk, d);
    assert plan[..n] + plan[n..] == plan;
    CutConcat(plan[..n], plan[n..], d, c);
    assert plan[n..][0] == plan[n];
    assert Cut(plan[n..], Exec(plan[..n], d), c);
  }

  /** The store a program changes, and the journal of what it did to it. */
  class Store<K(==), V(==)> {
    var files: map<K, V>
    ghost var journal: seq<Op<K, V>>

    constructor (files: map<K, V>)
      ensures this.files == files && journal == []
    {
      this.files := files;
      journal := [];
    }

    method Do(op: Op<K, V>)
      modifies this
      ensures files == Apply(op, old(files))
      ensures journal == old(journal) + [op]
    {
      files := Apply(op, files);
      journal := journal + [op];
    }

    /** A plan as one call of another program, which works or breaks off. */
    method Call(plan: seq<Op<K, V>>, breaksAt: Option<(nat, V)>) returns (ok: bool)
      modifies this
      ensures ok == (breaksAt.None? || breaksAt.value.0 >= |plan|)
      ensures ok ==> files == Exec(plan, old(files)) && journal == old(journal) + plan
      ensures !ok ==> files == Broken(plan, breaksAt.value.0, breaksAt.value.1, old(files))
    {
      ok := breaksAt.None? || breaksAt.value.0 >= |plan|;
      if ok {
        files := Exec(plan, files);
        journal := journal + plan;
      } else {
        files := Broken(plan, breaksAt.value.0, breaksAt.value.1, files);
      }
    }
  }
}
