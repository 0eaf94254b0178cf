/**
  * The edit tracker (`fields`): a nested, insertion-ordered dictionary that
  * mirrors the loaded document. A dictionary is an ordered sequence of
  * entries; `Put` is Python's `d[k] = v`, which replaces a value in place
  * or appends a new key at the end. A section inside the tracker is reached
  * by its path, the keys leading to it from the top level.
  */
module Tracker {
  import opened Wrappers
  import opened Numbers

  datatype Value =
    | Bool(b: bool)
    | Int(n: int)
    | Float(lit: string)
    | Str(s: string)
    | List(items: seq<string>)
    | Section(entries: seq<Entry>)

  datatype Entry = Entry(key: string, val: Value)

  type Dict = seq<Entry>

  /** A leaf of the tracker: the key inside the section at `path`. */
  datatype Slot = Slot(path: seq<string>, key: string)

  /** The key through which a slot is reached from the top of its dictionary. */
  function Head(s: Slot): string
  {
    if s.path == [] then s.key else s.path[0]
  }

  function Keys(d: Dict): (ks: seq<string>)
    ensures |ks| == |d|
    ensures forall i | 0 <= i < |d| :: ks[i] == d[i].key
  {
    if d == [] then [] else [d[0].key] + Keys(d[1..])
  }

  predicate UniqueKeys(d: Dict)
  {
    forall i, j | 0 <= i < j < |d| :: d[i].key != d[j].key
  }

  /** `key in d` and the read `d[key]`: the value under `k`, or nothing when `d[key]` would raise `KeyError`. */
  function Lookup(d: Dict, k: string): (r: Option<Value>)
    ensures r.Some? <==> k in Keys(d)
  {
    if d == [] then None
    else if d[0].key == k then Some(d[0].val)
    else
      assert Keys(d) == [d[0].key] + Keys(d[1..]);
      Lookup(d[1..], k)
  }

  /**
    * `d[k] = v`: the new value is found under `k`, every other key keeps its
    * value, and the keys keep their order, with `k` appended when it is new.
    */
  function Put(d: Dict, k: string, v: Value): (r: Dict)
    ensures Lookup(r, k) == Some(v)
    ensures forall k' | k' != k :: Lookup(r, k') == Lookup(d, k')
    ensures k !in Keys(d) ==> r == d + [Entry(k, v)]
  {
    if d == [] then [Entry(k, v)]
    else if d[0].key == k then
      var r := [Entry(k, v)] + d[1..];
      assert r[1..] == d[1..];
      r
    else
      var t := Put(d[1..], k, v);
      LookupPast(d[0], t, k);
      LookupPastOthers(d, k, t);
      AppendPast(d, k, v, t);
      [d[0]] + t
  }

  /** Looking past a first entry with another key. */
  lemma LookupPast(e: Entry, t: Dict, k: string)
    requires e.key != k
    ensures Lookup([e] + t, k) == Lookup(t, k)
  {
    assert ([e] + t)[1..] == t;
  }

  /** The other keys of `Put`'s step keep their values. */
  lemma LookupPastOthers(d: Dict, k: string, t: Dict)
    requires d != [] && d[0].key != k
    requires forall k' | k' != k :: Lookup(t, k') == Lookup(d[1..], k')
    ensures forall k' | k' != k :: Lookup([d[0]] + t, k') == Lookup(d, k')
  {
    forall k' | k' != k ensures Lookup([d[0]] + t, k') == Lookup(d, k') {
      if d[0].key != k' {
        LookupPast(d[0], t, k');
        LookupPast(d[0], d[1..], k');
        assert [d[0]] + d[1..] == d;
      }
    }
  }

  /** A new key, appended by the recursive call, is appended after the first entry too. */
  lemma AppendPast(d: Dict, k: string, v: Value, t: Dict)
    requires d != [] && (k !in Keys(d[1..]) ==> t == d[1..] + [Entry(k, v)])
    ensures k !in Keys(d) ==> [d[0]] + t == d + [Entry(k, v)]
  {
    if k !in Keys(d) {
      assert Keys(d) == [d[0].key] + Keys(d[1..]);
      assert d == [d[0]] + d[1..];
    }
  }

  /** The tracker's own invariant: keys are unique at every level. */
  predicate WellFormed(d: Dict)
    decreases Section(d)
  {
    && UniqueKeys(d)
    && forall i | 0 <= i < |d| :: d[i].val.Section? ==> WellFormed(d[i].val.entries)
  }

  /** A float as the loaders produce it: a literal that `float()` accepts, with a decimal point. */
  predicate FloatLiteral(lit: string)
  {
    FloatAccepts(lit) && '.' in lit
  }

  /**
    * A document as the TOML and JSON loaders hand it over: keys unique at
    * every level and floats written as decimal literals.
    */
  predicate Loadable(d: Dict)
    decreases Section(d)
  {
    && UniqueKeys(d)
    && forall i | 0 <= i < |d| ::
         && (d[i].val.Float? ==> FloatLiteral(d[i].val.lit))
         && (d[i].val.Section? ==> Loadable(d[i].val.entries))
  }

  // ----- Sections by path -----

  /** The section dictionary reached from `d` by the keys of `p`, if every step is a section. */
  function SectionAt(d: Dict, p: seq<string>): Option<Dict>
    decreases |p|
  {
    if p == [] then Some(d)
    else match Lookup(d, p[0])
      case Some(Section(inner)) => SectionAt(inner, p[1..])
      case _ => None
  }

  /** `d` with the section at `p` replaced by `s`. */
  function ReplaceSection(d: Dict, p: seq<string>, s: Dict): Dict
    requires SectionAt(d, p).Some?
    decreases |p|
  {
    if p == [] then s
    else
      var inner := Lookup(d, p[0]).value.entries;
      Put(d, p[0], Section(ReplaceSection(inner, p[1..], s)))
  }

  /** `current_fields[k] = v`, where `current_fields` is the tracker's section at `p`. */
  function PutAt(d: Dict, p: seq<string>, k: string, v: Value): Dict
    requires SectionAt(d, p).Some?
  {
    ReplaceSection(d, p, Put(SectionAt(d, p).value, k, v))
  }

  /** The leaf value tracked at slot `s`, or None when there is no leaf there. */
  function TrackedLeaf(d: Dict, s: Slot): Option<Value>
  {
    match SectionAt(d, s.path)
    case None => None
    case Some(sec) =>
      match Lookup(sec, s.key)
      case Some(v) => if v.Section? then None else Some(v)
      case None => None
  }

  /**
    * Two dictionaries with the same keys in the same order at every level,
    * and sections in the same places: only leaf values may differ.
    */
  predicate SameShape(d1: Dict, d2: Dict)
    decreases Section(d1)
  {
    && |d1| == |d2|
    && forall i | 0 <= i < |d1| ::
         && d1[i].key == d2[i].key
         && (d1[i].val.Section? <==> d2[i].val.Section?)
         && (d1[i].val.Section? ==> SameShape(d1[i].val.entries, d2[i].val.entries))
  }

  // ----- Seeding -----

  /** The value `eval` produced, stored in the tracker. */
  function EvaluatedValue(e: Evaluated): (v: Value)
    requires !e.Raises?
    ensures v.Int? || v.Float?
  {
    match e
    case EvInt(n) => Int(n)
    case EvFloat(lit) => Float(lit)
  }

  /** A leaf as the loaders produce it: not a section, and a float only as a decimal literal. */
  predicate LeafLoadable(v: Value)
  {
    !v.Section? && (v.Float? ==> FloatLiteral(v.lit))
  }

  /**
    * The value `render_settings` stores in the tracker for a leaf: a
    * boolean is read back from its checkbox variable, a number is
    * `eval(str(value))`, and lists and strings are stored as they are.
    * For a loaded leaf that is the loaded value itself: `eval(str(n)) == n`.
    */
  function SeededLeaf(v: Value): (r: Value)
    requires LeafLoadable(v)
    ensures r == v
  {
    match v
    case Bool(b) => Bool(b)
    case Int(m) => (IntTextRoundTrip(m); EvaluatedValue(EvalNumber(IntToText(m))))
    case Float(lit) => EvaluatedValue(EvalNumber(lit))
    case Str(s) => Str(s)
    case List(items) => List(items)
  }

  /**
    * The value `render_settings` stores in the tracker for entry `i` of the
    * section `es`: a section gets a fresh dictionary that is seeded in turn,
    * a leaf its seeded value.
    */
  function SeededValue(es: Dict, i: nat): Value
    requires i < |es| && Loadable(es)
    decreases Section(es), 0
  {
    match es[i].val
    case Section(inner) => Section(SeedInto([], inner, |inner|))
    case _ => SeededLeaf(es[i].val)
  }

  /**
    * The tracker dictionary `render_settings` leaves behind after the first
    * `n` entries of the section `es`, starting from the dictionary `acc`.
    */
  function SeedInto(acc: Dict, es: Dict, n: nat): Dict
    requires n <= |es| && Loadable(es)
    decreases Section(es), n
  {
    if n == 0 then acc
    else Put(SeedInto(acc, es, n - 1), es[n - 1].key, SeededValue(es, n - 1))
  }

  // ----- Lemmas: dictionaries -----

  /** A non-empty sequence is its front followed by its last element. */
  lemma SplitLast<T>(s: seq<T>)
    requires s != []
    ensures s == s[..|s| - 1] + [s[|s| - 1]]
  {
  }

  /** A non-empty prefix is the shorter prefix followed by its last element. */
  lemma PrefixSplit<T>(s: seq<T>, n: nat)
    requires 0 < n <= |s|
    ensures s[..n] == s[..n - 1] + [s[n - 1]]
  {
  }

  lemma {:induction false} LookupAt(d: Dict, i: nat)
    requires UniqueKeys(d) && i < |d|
    ensures Lookup(d, d[i].key) == Some(d[i].val)
  {
    if i > 0 {
      assert d[0].key != d[i].key;
      LookupAt(d[1..], i - 1);
    }
  }

  lemma PutSameKeys(d: Dict, k: string, v: Value)
    requires UniqueKeys(d) && k in Keys(d)
    ensures Keys(Put(d, k, v)) == Keys(d)
  {
    var r := Put(d, k, v);
    PutInPlace(d, k, v, 0);
    forall i | 0 <= i < |d| ensures Keys(r)[i] == Keys(d)[i] {
      PutInPlace(d, k, v, i);
    }
  }

  lemma PutUnique(d: Dict, k: string, v: Value)
    requires UniqueKeys(d)
    ensures UniqueKeys(Put(d, k, v))
  {
    if k in Keys(d) {
      PutSameKeys(d, k, v);
      SameKeysUnique(d, Put(d, k, v));
    } else {
      AppendUnique(d, Entry(k, v));
    }
  }

  lemma SameKeysUnique(d: Dict, r: Dict)
    requires UniqueKeys(d) && Keys(r) == Keys(d)
    ensures UniqueKeys(r)
  {
    forall i, j | 0 <= i < j < |r| ensures r[i].key != r[j].key {
      assert r[i].key == Keys(r)[i] && r[j].key == Keys(r)[j];
    }
  }

  lemma AppendUnique(d: Dict, e: Entry)
    requires UniqueKeys(d) && e.key !in Keys(d)
    ensures UniqueKeys(d + [e])
  {
    forall i | 0 <= i < |d| ensures d[i].key != e.key {
      assert Keys(d)[i] == d[i].key;
    }
  }

  lemma {:induction false} PutTwice(d: Dict, k: string, a: Value, b: Value)
    ensures Put(Put(d, k, a), k, b) == Put(d, k, b)
  {
    if d != [] && d[0].key != k {
      PutTwice(d[1..], k, a, b);
      assert Put(d, k, a)[1..] == Put(d[1..], k, a);
    }
  }

  /** When `k` is present, `Put` replaces its entry in place and leaves every other entry as it was. */
  lemma {:induction false} PutInPlace(d: Dict, k: string, v: Value, i: nat)
    requires UniqueKeys(d) && k in Keys(d) && i < |d|
    ensures |Put(d, k, v)| == |d|
    ensures Put(d, k, v)[i] == if d[i].key == k then Entry(k, v) else d[i]
  {
    if d[0].key != k {
      var t := d[1..];
      assert Keys(d) == [d[0].key] + Keys(t);
      PutInPlace(t, k, v, if i == 0 then 0 else i - 1);
    } else if i > 0 {
      assert d[i].key != d[0].key;
    }
  }

  // ----- Lemmas: sections by path -----

  lemma {:induction false} SectionAtReplace(d: Dict, p: seq<string>, s: Dict)
    requires SectionAt(d, p).Some?
    ensures SectionAt(ReplaceSection(d, p, s), p) == Some(s)
    decreases |p|
  {
    if p != [] {
      var inner := Lookup(d, p[0]).value.entries;
      SectionAtReplace(inner, p[1..], s);
    }
  }

  /**
    * After `current_fields[k] = v` in the section at `p`, that section is
    * the old one with `k` assigned: the store lands at its own path.
    */
  lemma PutAtStores(d: Dict, p: seq<string>, k: string, v: Value)
    requires SectionAt(d, p).Some?
    ensures SectionAt(PutAt(d, p, k, v), p) == Some(Put(SectionAt(d, p).value, k, v))
  {
    SectionAtReplace(d, p, Put(SectionAt(d, p).value, k, v));
  }

  lemma {:induction false} ReplaceTwice(d: Dict, p: seq<string>, s1: Dict, s2: Dict)
    requires SectionAt(d, p).Some?
    ensures SectionAt(ReplaceSection(d, p, s1), p).Some?
    ensures ReplaceSection(ReplaceSection(d, p, s1), p, s2) == ReplaceSection(d, p, s2)
    decreases |p|
  {
    SectionAtReplace(d, p, s1);
    if p != [] {
      var inner := Lookup(d, p[0]).value.entries;
      ReplaceTwice(inner, p[1..], s1, s2);
      PutTwice(d, p[0], Section(ReplaceSection(inner, p[1..], s1)), Section(ReplaceSection(inner, p[1..], s2)));
    }
  }

  /**
    * The section stored under `k` in the section at `p` is the section at
    * `p + [k]`, and replacing it there is putting it under `k`.
    */
  lemma {:induction false} SectionAtChild(d: Dict, p: seq<string>, k: string, y: Dict, s: Dict)
    requires SectionAt(d, p).Some? && Lookup(SectionAt(d, p).value, k) == Some(Section(y))
    ensures SectionAt(d, p + [k]) == Some(y)
    ensures ReplaceSection(d, p + [k], s) == ReplaceSection(d, p, Put(SectionAt(d, p).value, k, Section(s)))
    decreases |p|
  {
    if p == [] {
      assert [k][1..] == [];
    } else {
      var inner := Lookup(d, p[0]).value.entries;
      assert (p + [k])[1..] == p[1..] + [k];
      SectionAtChild(inner, p[1..], k, y, s);
    }
  }

  // ----- Lemmas: one key per edit -----

  lemma {:induction false} SameShapeRefl(d: Dict)
    ensures SameShape(d, d)
    decreases Section(d)
  {
    forall i | 0 <= i < |d| && d[i].val.Section? ensures SameShape(d[i].val.entries, d[i].val.entries) {
      SameShapeRefl(d[i].val.entries);
    }
  }

  lemma {:induction false} SameShapeKeepsWellFormed(d1: Dict, d2: Dict)
    requires SameShape(d1, d2) && WellFormed(d1)
    ensures WellFormed(d2)
    decreases Section(d1)
  {
    forall i | 0 <= i < |d2| && d2[i].val.Section? ensures WellFormed(d2[i].val.entries) {
      SameShapeKeepsWellFormed(d1[i].val.entries, d2[i].val.entries);
    }
  }

  /** Putting `v` under `k` where `Lookup(d, k) == Some(w)`, keeping the kind of entry, keeps the shape. */
  lemma PutKeepsShape(d: Dict, k: string, w: Value, v: Value)
    requires UniqueKeys(d) && Lookup(d, k) == Some(w)
    requires (!w.Section? && !v.Section?) || (w.Section? && v.Section? && SameShape(w.entries, v.entries))
    ensures SameShape(d, Put(d, k, v))
  {
    var r := Put(d, k, v);
    PutInPlace(d, k, v, 0);
    forall i | 0 <= i < |d|
      ensures d[i].key == r[i].key && (d[i].val.Section? <==> r[i].val.Section?)
      ensures d[i].val.Section? ==> SameShape(d[i].val.entries, r[i].val.entries)
    {
      PutInPlace(d, k, v, i);
      if d[i].key == k {
        LookupAt(d, i);
      } else if d[i].val.Section? {
        SameShapeRefl(d[i].val.entries);
      }
    }
  }

  /** A leaf reached through the key `a` is a leaf of the section stored under `a`. */
  lemma TrackedLeafThrough(d: Dict, a: string, inner: Dict, t: Slot)
    requires Lookup(d, a) == Some(Section(inner)) && t.path != [] && t.path[0] == a
    ensures TrackedLeaf(d, t) == TrackedLeaf(inner, Slot(t.path[1..], t.key))
  {
  }

  /** Putting a value under `a` leaves every leaf that is not reached through `a` as it was. */
  lemma TrackedLeafAside(d: Dict, a: string, w: Value, t: Slot)
    requires t.path == [] ==> t.key != a
    requires t.path != [] ==> t.path[0] != a
    ensures TrackedLeaf(Put(d, a, w), t) == TrackedLeaf(d, t)
  {
  }

  /** `current_fields[k] = v` on a top-level leaf changes that leaf and no other. */
  lemma EditTopLeaf(d: Dict, k: string, v: Value, t: Slot)
    requires TrackedLeaf(d, Slot([], k)).Some? && !v.Section?
    ensures TrackedLeaf(Put(d, k, v), t) == if t == Slot([], k) then Some(v) else TrackedLeaf(d, t)
  {
    if t.path == [] {
    } else if t.path[0] != k {
      TrackedLeafAside(d, k, v, t);
    } else {
      assert SectionAt(Put(d, k, v), t.path) == None;
      assert SectionAt(d, t.path) == None;
    }
  }

  /** An edit below the key `p[0]` puts the edited inner section back under `p[0]`. */
  lemma PutAtStep(d: Dict, p: seq<string>, k: string, v: Value)
    requires p != [] && SectionAt(d, p).Some?
    ensures Lookup(d, p[0]).Some? && Lookup(d, p[0]).value.Section?
    ensures SectionAt(Lookup(d, p[0]).value.entries, p[1..]).Some?
    ensures PutAt(d, p, k, v) == Put(d, p[0], Section(PutAt(Lookup(d, p[0]).value.entries, p[1..], k, v)))
  {
  }

  /** The step of `EditOnlyThisLeaf` for a slot reached through the edited section. */
  lemma EditThrough(d: Dict, p: seq<string>, k: string, v: Value, t: Slot, inner: Dict)
    requires p != [] && SectionAt(d, p).Some? && t.path != [] && t.path[0] == p[0]
    requires Lookup(d, p[0]) == Some(Section(inner)) && SectionAt(inner, p[1..]).Some?
    requires TrackedLeaf(PutAt(inner, p[1..], k, v), Slot(t.path[1..], t.key))
      == if Slot(t.path[1..], t.key) == Slot(p[1..], k) then Some(v) else TrackedLeaf(inner, Slot(t.path[1..], t.key))
    ensures TrackedLeaf(PutAt(d, p, k, v), t) == if t == Slot(p, k) then Some(v) else TrackedLeaf(d, t)
  {
    PutAtStep(d, p, k, v);
    var inner' := PutAt(inner, p[1..], k, v);
    TrackedLeafThrough(d, p[0], inner, t);
    TrackedLeafThrough(Put(d, p[0], Section(inner')), p[0], inner', t);
    assert t == Slot(p, k) <==> Slot(t.path[1..], t.key) == Slot(p[1..], k) by {
      assert t.path == [t.path[0]] + t.path[1..];
      assert p == [p[0]] + p[1..];
    }
  }

  /** The step of `EditOnlyThisLeaf` for a slot not reached through the edited section. */
  lemma EditAside(d: Dict, p: seq<string>, k: string, v: Value, t: Slot)
    requires p != [] && SectionAt(d, p).Some? && (t.path == [] || t.path[0] != p[0])
    ensures TrackedLeaf(PutAt(d, p, k, v), t) == TrackedLeaf(d, t)
  {
    PutAtStep(d, p, k, v);
    var inner' := PutAt(Lookup(d, p[0]).value.entries, p[1..], k, v);
    if t.path != [] || t.key != p[0] {
      TrackedLeafAside(d, p[0], Section(inner'), t);
    }
  }

  /**
    * An edit callback's `current_fields[key] = v` on a leaf: the slot edited
    * now holds `v` and every other leaf holds what it held.
    */
  lemma {:induction false} EditOnlyThisLeaf(d: Dict, p: seq<string>, k: string, v: Value, t: Slot)
    requires TrackedLeaf(d, Slot(p, k)).Some? && !v.Section?
    ensures TrackedLeaf(PutAt(d, p, k, v), t) == if t == Slot(p, k) then Some(v) else TrackedLeaf(d, t)
    decreases |p|
  {
    if p == [] {
      EditTopLeaf(d, k, v, t);
    } else {
      PutAtStep(d, p, k, v);
      if t.path != [] && t.path[0] == p[0] {
        EditOnlyThisLeaf(Lookup(d, p[0]).value.entries, p[1..], k, v, Slot(t.path[1..], t.key));
        EditThrough(d, p, k, v, t, Lookup(d, p[0]).value.entries);
      } else {
        EditAside(d, p, k, v, t);
      }
    }
  }

  /** An edit on a leaf adds or removes no key at any level, so the tracker stays well formed. */
  lemma {:induction false} EditKeepsShape(d: Dict, p: seq<string>, k: string, v: Value)
    requires WellFormed(d) && TrackedLeaf(d, Slot(p, k)).Some? && !v.Section?
    ensures SameShape(d, PutAt(d, p, k, v)) && WellFormed(PutAt(d, p, k, v))
    decreases |p|
  {
    var r := PutAt(d, p, k, v);
    if p == [] {
      PutKeepsShape(d, k, Lookup(d, k).value, v);
    } else {
      PutAtStep(d, p, k, v);
      var inner := Lookup(d, p[0]).value.entries;
      var inner' := PutAt(inner, p[1..], k, v);
      WellFormedChild(d, p[0], inner);
      EditKeepsShape(inner, p[1..], k, v);
      PutKeepsShape(d, p[0], Section(inner), Section(inner'));
    }
    SameShapeKeepsWellFormed(d, r);
  }

  // ----- Lemmas: seeding -----

  lemma {:induction false} LookupIndex(d: Dict, k: string) returns (i: nat)
    requires Lookup(d, k).Some?
    ensures i < |d| && d[i] == Entry(k, Lookup(d, k).value)
  {
    if d[0].key == k {
      i := 0;
    } else {
      var j := LookupIndex(d[1..], k);
      i := j + 1;
    }
  }

  lemma WellFormedChild(d: Dict, k: string, inner: Dict)
    requires WellFormed(d) && Lookup(d, k) == Some(Section(inner))
    ensures WellFormed(inner)
  {
    var i := LookupIndex(d, k);
  }

  lemma {:induction false} PrefixKeyIsNew(es: Dict, n: nat)
    requires UniqueKeys(es) && 0 < n <= |es|
    ensures es[n - 1].key !in Keys(es[..n - 1])
  {
    var ks := Keys(es[..n - 1]);
    forall j | 0 <= j < |ks| ensures ks[j] != es[n - 1].key {
      assert es[j].key != es[n - 1].key;
    }
  }

  /** The value seeded for a loaded entry is the loaded value itself. */
  lemma {:induction false} SeededValueCopies(es: Dict, i: nat)
    requires i < |es| && Loadable(es)
    ensures SeededValue(es, i) == es[i].val
    decreases Section(es), 0
  {
    match es[i].val
    case Section(inner) =>
      SeedCopies(inner, |inner|);
      assert inner[..|inner|] == inner;
    case _ =>
  }

  /**
    * Seeding a fresh dictionary with a document reproduces it: every section
    * holds that section's keys in the same order, and every leaf holds the
    * loaded value (booleans stay booleans, `eval(str(n)) == n` for numbers).
    */
  lemma {:induction false} SeedCopies(es: Dict, n: nat)
    requires n <= |es| && Loadable(es)
    ensures SeedInto([], es, n) == es[..n]
    decreases Section(es), n
  {
    if n > 0 {
      SeedCopies(es, n - 1);
      SeededValueCopies(es, n - 1);
      PrefixKeyIsNew(es, n);
      PrefixSplit(es, n);
    }
  }

  lemma {:induction false} LoadableWellFormed(d: Dict)
    requires Loadable(d)
    ensures WellFormed(d)
    decreases Section(d)
  {
    forall i | 0 <= i < |d| && d[i].val.Section? ensures WellFormed(d[i].val.entries) {
      LoadableWellFormed(d[i].val.entries);
    }
  }

  lemma KeysAppend(a: Dict, e: Entry)
    ensures Keys(a + [e]) == Keys(a) + [e.key]
  {
    var l, r := Keys(a + [e]), Keys(a) + [e.key];
    assert |l| == |r|;
    forall i | 0 <= i < |l| ensures l[i] == r[i] {
      if i < |a| { assert (a + [e])[i] == a[i]; }
    }
  }

  /** `for e in kvs: d[e.key] = e.val`, starting from `acc`. */
  function PutAll(acc: Dict, kvs: Dict): Dict
  {
    if kvs == [] then acc
    else Put(PutAll(acc, kvs[..|kvs| - 1]), kvs[|kvs| - 1].key, kvs[|kvs| - 1].val)
  }

  /**
    * Seeding the first `n` entries of a loaded section into `acc` puts those
    * entries into it one after the other, each with its loaded value.
    */
  lemma {:induction false} SeedIsPutAll(acc: Dict, es: Dict, n: nat)
    requires n <= |es| && Loadable(es)
    ensures SeedInto(acc, es, n) == PutAll(acc, es[..n])
  {
    if n > 0 {
      SeedIsPutAll(acc, es, n - 1);
      SeedIsPutAllStep(acc, es, n);
    } else {
      assert SeedInto(acc, es, 0) == acc;
    }
  }

  /** The step of `SeedIsPutAll`: seeding entry `n - 1` puts its loaded value. */
  lemma SeedIsPutAllStep(acc: Dict, es: Dict, n: nat)
    requires 0 < n <= |es| && Loadable(es)
    requires SeedInto(acc, es, n - 1) == PutAll(acc, es[..n - 1])
    ensures SeedInto(acc, es, n) == PutAll(acc, es[..n])
  {
    SeededValueCopies(es, n - 1);
    PutAllPrefix(acc, es, n);
  }

  /** Loading a document into an empty tracker leaves exactly that document. */
  lemma FreshLoadIsDoc(doc: Dict)
    requires Loadable(doc)
    ensures PutAll([], doc) == doc
  {
    SeedIsPutAll([], doc, |doc|);
    SeedCopies(doc, |doc|);
    assert doc[..|doc|] == doc;
  }

  /** Putting a prefix of `es` puts the shorter prefix, then its last entry. */
  lemma PutAllPrefix(acc: Dict, es: Dict, n: nat)
    requires 0 < n <= |es|
    ensures PutAll(acc, es[..n]) == Put(PutAll(acc, es[..n - 1]), es[n - 1].key, es[n - 1].val)
  {
    assert es[..n][..n - 1] == es[..n - 1];
  }

  lemma {:induction false} PutAllUnique(acc: Dict, kvs: Dict)
    requires UniqueKeys(acc)
    ensures UniqueKeys(PutAll(acc, kvs))
  {
    if kvs != [] {
      var init, last := kvs[..|kvs| - 1], kvs[|kvs| - 1];
      PutAllUnique(acc, init);
      PutUnique(PutAll(acc, init), last.key, last.val);
    }
  }

  /** The keys of `a`, in their order, are the first keys of `b`. */
  predicate KeysPrefix(a: Dict, b: Dict)
  {
    |a| <= |b| && forall i | 0 <= i < |a| :: b[i].key == a[i].key
  }

  /** Putting a key keeps the keys already present, in their order, at the front. */
  lemma PutKeepsKeyPrefix(d: Dict, k: string, v: Value)
    requires UniqueKeys(d)
    ensures KeysPrefix(d, Put(d, k, v))
  {
    if k in Keys(d) {
      PutInPlace(d, k, v, 0);
      forall i | 0 <= i < |d| ensures Put(d, k, v)[i].key == d[i].key {
        PutInPlace(d, k, v, i);
      }
    }
  }

  /** Putting entries into a dictionary that already holds keys keeps the old keys, in their order, at its front. */
  lemma {:induction false} PutAllKeepsOldKeys(acc: Dict, kvs: Dict)
    requires UniqueKeys(acc)
    ensures KeysPrefix(acc, PutAll(acc, kvs))
  {
    if kvs != [] {
      var init, last := kvs[..|kvs| - 1], kvs[|kvs| - 1];
      PutAllKeepsOldKeys(acc, init);
      PutAllUnique(acc, init);
      PutKeepsKeyPrefix(PutAll(acc, init), last.key, last.val);
    }
  }

  /**
    * After putting entries with unique keys, a key among them holds its
    * entry's value, and every other key keeps its old value.
    */
  lemma {:induction false} PutAllLookup(acc: Dict, kvs: Dict, k: string)
    requires UniqueKeys(kvs)
    ensures Lookup(PutAll(acc, kvs), k) == if k in Keys(kvs) then Lookup(kvs, k) else Lookup(acc, k)
  {
    if kvs != [] {
      var init := kvs[..|kvs| - 1];
      assert UniqueKeys(init);
      PutAllLookup(acc, init, k);
      PutAllLookupStep(acc, kvs, k);
    }
  }

  /** The step of `PutAllLookup`: the last entry of `kvs` put on top of the others. */
  lemma PutAllLookupStep(acc: Dict, kvs: Dict, k: string)
    requires kvs != [] && UniqueKeys(kvs)
    requires var init := kvs[..|kvs| - 1];
      Lookup(PutAll(acc, init), k) == if k in Keys(init) then Lookup(init, k) else Lookup(acc, k)
    ensures Lookup(PutAll(acc, kvs), k) == if k in Keys(kvs) then Lookup(kvs, k) else Lookup(acc, k)
  {
    var n := |kvs|;
    var init, last := kvs[..n - 1], kvs[n - 1];
    PrefixKeyIsNew(kvs, n);
    SplitLast(kvs);
    PutOnTop(PutAll(acc, init), init, last, acc, k);
  }

  /** `b` looks up like `init` over `acc`; after putting `last`, it looks up like `init + [last]` over `acc`. */
  lemma PutOnTop(b: Dict, init: Dict, last: Entry, acc: Dict, k: string)
    requires last.key !in Keys(init)
    requires Lookup(b, k) == if k in Keys(init) then Lookup(init, k) else Lookup(acc, k)
    ensures var kvs := init + [last];
      Lookup(Put(b, last.key, last.val), k) == if k in Keys(kvs) then Lookup(kvs, k) else Lookup(acc, k)
  {
    var kvs := init + [last];
    assert Put(init, last.key, last.val) == kvs;
    KeysAppend(init, last);
    if k == last.key {
      assert Lookup(kvs, k) == Some(last.val);
    } else {
      assert Lookup(kvs, k) == Lookup(init, k);
      assert k in Keys(kvs) <==> k in Keys(init);
    }
  }

  /** The keys after putting entries with unique keys are the old keys and the entries' keys. */
  lemma PutAllKeySet(acc: Dict, kvs: Dict, k: string)
    requires UniqueKeys(kvs)
    ensures k in Keys(PutAll(acc, kvs)) <==> k in Keys(acc) || k in Keys(kvs)
  {
    PutAllLookup(acc, kvs, k);
  }

  // ----- Lemmas: editing by path -----

  /** After the section at `p` is replaced by `s`, a put at `p` is a put into `s`. */
  lemma PutAtAfterReplace(d: Dict, p: seq<string>, s: Dict, k: string, v: Value)
    requires SectionAt(d, p).Some?
    ensures SectionAt(ReplaceSection(d, p, s), p) == Some(s)
    ensures PutAt(ReplaceSection(d, p, s), p, k, v) == ReplaceSection(d, p, Put(s, k, v))
  {
    SectionAtReplace(d, p, s);
    ReplaceTwice(d, p, s, Put(s, k, v));
  }

  /**
    * `current_fields[key] = {}` followed by filling that new dictionary with
    * `x`: the fresh section is reachable at `p + [k]`, and filling it there
    * is the same as storing `x` under `k` in one step.
    */
  lemma PutAtChildSection(d: Dict, p: seq<string>, k: string, x: Dict)
    requires SectionAt(d, p).Some?
    ensures SectionAt(PutAt(d, p, k, Section([])), p + [k]) == Some([])
    ensures ReplaceSection(PutAt(d, p, k, Section([])), p + [k], x) == PutAt(d, p, k, Section(x))
  {
    var sec := SectionAt(d, p).value;
    var s := Put(sec, k, Section([]));
    var d' := ReplaceSection(d, p, s);
    SectionAtReplace(d, p, s);
    SectionAtChild(d', p, k, [], x);
    ReplaceTwice(d, p, s, Put(s, k, Section(x)));
    PutTwice(sec, k, Section([]), Section(x));
  }

  /** Storing a key's own value again changes nothing. */
  lemma {:induction false} PutSame(d: Dict, k: string, v: Value)
    requires Lookup(d, k) == Some(v)
    ensures Put(d, k, v) == d
  {
    if d[0].key != k {
      PutSame(d[1..], k, v);
    }
  }

  /** Storing the value a leaf already holds changes nothing. */
  lemma {:induction false} PutAtSame(d: Dict, p: seq<string>, k: string, w: Value)
    requires TrackedLeaf(d, Slot(p, k)) == Some(w)
    ensures PutAt(d, p, k, w) == d
    decreases |p|
  {
    if p == [] {
      PutSame(d, k, w);
    } else {
      PutAtStep(d, p, k, w);
      var inner := Lookup(d, p[0]).value.entries;
      PutAtSame(inner, p[1..], k, w);
      PutSame(d, p[0], Section(inner));
    }
  }

  /** Of two puts under the same key at the same path, only the second one is left. */
  lemma PutAtTwice(d: Dict, p: seq<string>, k: string, a: Value, b: Value)
    requires SectionAt(d, p).Some?
    ensures SectionAt(PutAt(d, p, k, a), p).Some?
    ensures PutAt(PutAt(d, p, k, a), p, k, b) == PutAt(d, p, k, b)
  {
    var sec := SectionAt(d, p).value;
    PutAtAfterReplace(d, p, Put(sec, k, a), k, b);
    PutTwice(sec, k, a, b);
  }

  /** Putting a well-formed value into a well-formed dictionary keeps it well formed. */
  lemma PutWellFormed(d: Dict, k: string, v: Value)
    requires WellFormed(d) && (v.Section? ==> WellFormed(v.entries))
    ensures WellFormed(Put(d, k, v))
  {
    PutUnique(d, k, v);
    PutChildrenWellFormed(d, k, v);
  }

  /** The sections inside `Put(d, k, v)` are those of `d` and `v` itself, so they stay well formed. */
  lemma PutChildrenWellFormed(d: Dict, k: string, v: Value)
    requires WellFormed(d) && (v.Section? ==> WellFormed(v.entries))
    ensures var r := Put(d, k, v);
      forall i | 0 <= i < |r| && r[i].val.Section? :: WellFormed(r[i].val.entries)
  {
    var r := Put(d, k, v);
    assert UniqueKeys(d);
    forall i | 0 <= i < |r| && r[i].val.Section? ensures WellFormed(r[i].val.entries) {
      PutEntry(d, k, v, i);
    }
  }

  /** Each entry of `Put(d, k, v)` is an entry of `d` or the new one. */
  lemma PutEntry(d: Dict, k: string, v: Value, i: nat)
    requires UniqueKeys(d) && i < |Put(d, k, v)|
    ensures Put(d, k, v)[i] == Entry(k, v) || (i < |d| && Put(d, k, v)[i] == d[i])
  {
    if k in Keys(d) {
      PutInPlace(d, k, v, 0);
      PutInPlace(d, k, v, i);
    }
  }

  /** Putting the entries of a well-formed dictionary into a well-formed one keeps it well formed. */
  lemma {:induction false} PutAllWellFormed(acc: Dict, kvs: Dict)
    requires WellFormed(acc) && WellFormed(kvs)
    ensures WellFormed(PutAll(acc, kvs))
  {
    if kvs != [] {
      var init, last := kvs[..|kvs| - 1], kvs[|kvs| - 1];
      assert WellFormed(init);
      PutAllWellFormed(acc, init);
      PutWellFormed(PutAll(acc, init), last.key, last.val);
    }
  }

  /** A leaf of `kvs` is found, unchanged, after putting the entries of `kvs` into any dictionary. */
  lemma TrackedLeafPutAll(acc: Dict, kvs: Dict, s: Slot)
    requires UniqueKeys(kvs) && TrackedLeaf(kvs, s).Some?
    ensures TrackedLeaf(PutAll(acc, kvs), s) == TrackedLeaf(kvs, s)
  {
    var a := Head(s);
    assert a == if s.path == [] then s.key else s.path[0];
    PutAllLookup(acc, kvs, a);
  }

  lemma KeysOfPrefix(es: Dict, n: nat)
    requires 0 < n <= |es|
    ensures Keys(es[..n]) == Keys(es[..n - 1]) + [es[n - 1].key]
  {
    PrefixSplit(es, n);
    KeysAppend(es[..n - 1], es[n - 1]);
  }

  /** Replacing a section by itself changes nothing. */
  lemma {:induction false} ReplaceSame(d: Dict, p: seq<string>)
    requires SectionAt(d, p).Some?
    ensures ReplaceSection(d, p, SectionAt(d, p).value) == d
    decreases |p|
  {
    if p != [] {
      var inner := Lookup(d, p[0]).value.entries;
      ReplaceSame(inner, p[1..]);
      PutSame(d, p[0], Section(inner));
    }
  }
}

