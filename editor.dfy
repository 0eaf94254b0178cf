/**
  * The editor window: the widgets `render_settings` creates for each leaf of
  * the loaded document, the tracker they feed, and the edit callbacks bound
  * to them. A widget is addressed by the slot of the leaf it edits; the
  * callbacks of one `render_settings` call share its local `text`, which
  * after the loop names the last Text widget created in that section.
  */
module Editor {
  import opened Wrappers
  import opened PyText
  import opened Numbers
  import opened Tracker

  /** A leaf's widget together with the Tk variable or buffer behind it. */
  datatype Widget =
    | Check(on: bool)                         // Checkbutton and its BooleanVar
    | NumEntry(text: string)                  // Entry and its StringVar
    | ListText(content: string, height: nat)  // Text holding one list item per line
    | PlainText(content: string, height: nat) // Text holding a string

  predicate IsText(w: Widget)
  {
    w.ListText? || w.PlainText?
  }

  /** The widget `render_settings` creates for a loaded leaf. */
  function LeafWidget(v: Value): Widget
    requires LeafLoadable(v)
  {
    match v
    case Bool(b) => Check(b)
    case Int(m) => NumEntry(IntToText(m))
    case Float(lit) => NumEntry(lit)
    case List(items) => ListText(ListLayout(items), |items|)
    case Str(s) => PlainText(s, TextHeight(|s|))
  }

  /**
    * A widget and the value tracked for its leaf agree: a checkbox's
    * variable is the tracked boolean; an entry's text passes the keystroke
    * filter, and when `eval` accepts it the tracked number is its value;
    * a list's or a string's Text widget tracks a list or a string.
    */
  predicate Agrees(w: Widget, v: Option<Value>)
  {
    match w
    case Check(on) => v == Some(Bool(on))
    case NumEntry(t) =>
      && ValidateNumberInput(t) && v.Some? && (v.value.Int? || v.value.Float?)
      && (!EvalNumber(t).Raises? ==> v.value == EvaluatedValue(EvalNumber(t)))
    case ListText(_, _) => v.Some? && v.value.List?
    case PlainText(_, _) => v.Some? && v.value.Str?
  }

  /** The slot `s` lies at or below the section path `p`. */
  predicate Under(s: Slot, p: seq<string>)
  {
    |p| <= |s.path| && s.path[..|p|] == p
  }

  /** The slot `s`, seen from the section at `p`. */
  function Rel(s: Slot, p: seq<string>): Slot
    requires Under(s, p)
  {
    Slot(s.path[|p|..], s.key)
  }

  /** The widgets created for the first `n` entries of the section `es` at path `p`. */
  function Cells(es: Dict, p: seq<string>, n: nat): map<Slot, Widget>
    requires n <= |es| && Loadable(es)
    decreases Section(es), n
  {
    if n == 0 then map[]
    else
      var prev := Cells(es, p, n - 1);
      var k := es[n - 1].key;
      match es[n - 1].val
      case Section(inner) => prev + Cells(inner, p + [k], |inner|)
      case _ => prev[Slot(p, k) := LeafWidget(es[n - 1].val)]
  }

  /**
    * The Text widget the local `text` of each `render_settings` call names
    * once the first `n` entries of the section `es` at path `p` are done:
    * per section path, the slot of the last list or string created there.
    */
  function LastTexts(es: Dict, p: seq<string>, n: nat): map<seq<string>, Slot>
    requires n <= |es| && Loadable(es)
    decreases Section(es), n
  {
    if n == 0 then map[]
    else
      var prev := LastTexts(es, p, n - 1);
      var k := es[n - 1].key;
      match es[n - 1].val
      case Section(inner) => prev + LastTexts(inner, p + [k], |inner|)
      case List(_) => prev[p := Slot(p, k)]
      case Str(_) => prev[p := Slot(p, k)]
      case _ => prev
  }

  /**
    * The editor's invariant: the tracker is well formed, every widget agrees
    * with the value tracked for its leaf, every Text widget's section has a
    * last Text widget, and that one is a Text widget of that section.
    */
  predicate Consistent(fields: Dict, cells: map<Slot, Widget>, lastText: map<seq<string>, Slot>)
  {
    && WellFormed(fields)
    && (forall s {:trigger TrackedLeaf(fields, s)} | s in cells :: Agrees(cells[s], TrackedLeaf(fields, s)))
    && TextsLinked(cells, lastText)
  }

  /** Every Text widget's section has a last Text widget, and that one is a Text widget of that section. */
  predicate TextsLinked(cells: map<Slot, Widget>, lastText: map<seq<string>, Slot>)
  {
    && (forall s | s in cells && IsText(cells[s]) :: s.path in lastText)
    && (forall p | p in lastText :: lastText[p] in cells && lastText[p].path == p && IsText(cells[lastText[p]]))
  }

  /** Every widget of `cells` lies below `p` and agrees with the leaf of `es` it was made for. */
  predicate AgreeBelow(cells: map<Slot, Widget>, es: Dict, p: seq<string>)
  {
    forall s | s in cells :: Under(s, p) && Agrees(cells[s], TrackedLeaf(es, Rel(s, p)))
  }

  /** Every widget of `cells` lies below `p` and is reached through one of the keys `ks`. */
  predicate ReachedBy(cells: map<Slot, Widget>, p: seq<string>, ks: seq<string>)
  {
    forall s | s in cells :: Under(s, p) && Head(Rel(s, p)) in ks
  }

  // ----- Lemmas: the widgets of a load -----

  /** The widget made for a loaded leaf agrees with the leaf, and is a Text widget exactly for lists and strings. */
  lemma LeafWidgetAgrees(v: Value)
    requires LeafLoadable(v)
    ensures Agrees(LeafWidget(v), Some(v))
    ensures IsText(LeafWidget(v)) <==> v.List? || v.Str?
  {
    if v.Int? {
      IntTextRoundTrip(v.n);
    }
  }

  lemma UnderChild(s: Slot, p: seq<string>, k: string)
    requires Under(s, p + [k])
    ensures Under(s, p) && Rel(s, p).path != [] && Rel(s, p).path[0] == k
    ensures Rel(s, p).path[1..] == Rel(s, p + [k]).path
  {
    assert s.path[..|p|] == s.path[..|p| + 1][..|p|];
    assert s.path[|p|] == s.path[..|p| + 1][|p|];
  }

  lemma CellsAgreeSection(es: Dict, p: seq<string>, n: nat, inner: Dict)
    requires 0 < n <= |es| && Loadable(es) && es[n - 1].val == Section(inner)
    requires AgreeBelow(Cells(es, p, n - 1), es, p)
    requires AgreeBelow(Cells(inner, p + [es[n - 1].key], |inner|), inner, p + [es[n - 1].key])
    ensures AgreeBelow(Cells(es, p, n), es, p)
  {
    var k := es[n - 1].key;
    CellsStepSection(es, p, n - 1, inner);
    LookupAt(es, n - 1);
    AgreeAddSection(Cells(es, p, n - 1), Cells(inner, p + [k], |inner|), Cells(es, p, n), es, p, k, inner);
  }

  /** The widgets of a child section, seen from the parent, agree with the parent's leaves. */
  lemma AgreeAddSection(prev: map<Slot, Widget>, ci: map<Slot, Widget>, c: map<Slot, Widget>, es: Dict, p: seq<string>, k: string, inner: Dict)
    requires AgreeBelow(prev, es, p) && Lookup(es, k) == Some(Section(inner))
    requires AgreeBelow(ci, inner, p + [k]) && c == prev + ci
    ensures AgreeBelow(c, es, p)
  {
    forall s | s in c ensures Under(s, p) && Agrees(c[s], TrackedLeaf(es, Rel(s, p))) {
      if s in ci {
        UnderChild(s, p, k);
        TrackedLeafThrough(es, k, inner, Rel(s, p));
      }
    }
  }

  lemma CellsAgreeLeaf(es: Dict, p: seq<string>, n: nat)
    requires 0 < n <= |es| && Loadable(es) && !es[n - 1].val.Section?
    requires AgreeBelow(Cells(es, p, n - 1), es, p)
    ensures AgreeBelow(Cells(es, p, n), es, p)
  {
    CellsStepLeaf(es, p, n - 1);
    LeafAgreesInParent(es, n - 1);
    AgreeAddLeaf(Cells(es, p, n - 1), Cells(es, p, n), es, p, es[n - 1].key, LeafWidget(es[n - 1].val));
  }

  /** The widget made for the leaf at index `i` agrees with what the tracker holds under its key. */
  lemma LeafAgreesInParent(es: Dict, i: nat)
    requires i < |es| && Loadable(es) && !es[i].val.Section?
    ensures Agrees(LeafWidget(es[i].val), TrackedLeaf(es, Slot([], es[i].key)))
  {
    LookupAt(es, i);
    LeafWidgetAgrees(es[i].val);
  }

  /** A widget for a top-level leaf of the section at `p` that agrees with it keeps all widgets agreeing. */
  lemma AgreeAddLeaf(prev: map<Slot, Widget>, c: map<Slot, Widget>, es: Dict, p: seq<string>, k: string, w: Widget)
    requires AgreeBelow(prev, es, p) && Agrees(w, TrackedLeaf(es, Slot([], k)))
    requires c == prev[Slot(p, k) := w]
    ensures AgreeBelow(c, es, p)
  {
    assert Rel(Slot(p, k), p) == Slot([], k);
  }

  /** Every widget created while seeding a section agrees with the loaded leaf it was made for. */
  lemma {:induction false} CellsAgree(es: Dict, p: seq<string>, n: nat)
    requires n <= |es| && Loadable(es)
    ensures AgreeBelow(Cells(es, p, n), es, p)
    decreases Section(es), n
  {
    if n > 0 {
      CellsAgree(es, p, n - 1);
      match es[n - 1].val
      case Section(inner) =>
        CellsAgree(inner, p + [es[n - 1].key], |inner|);
        CellsAgreeSection(es, p, n, inner);
      case _ =>
        CellsAgreeLeaf(es, p, n);
    }
  }

  lemma ReachedSection(es: Dict, p: seq<string>, n: nat, inner: Dict)
    requires 0 < n <= |es| && Loadable(es) && es[n - 1].val == Section(inner)
    requires ReachedBy(Cells(es, p, n - 1), p, Keys(es[..n - 1]))
    requires ReachedBy(Cells(inner, p + [es[n - 1].key], |inner|), p + [es[n - 1].key], Keys(inner))
    ensures ReachedBy(Cells(es, p, n), p, Keys(es[..n]))
  {
    var k := es[n - 1].key;
    var prev, ci := Cells(es, p, n - 1), Cells(inner, p + [k], |inner|);
    var c := prev + ci;
    assert Cells(es, p, n) == c;
    KeysOfPrefix(es, n);
    forall s | s in c ensures Under(s, p) && Head(Rel(s, p)) in Keys(es[..n]) {
      if s in ci {
        UnderChild(s, p, k);
      }
    }
  }

  lemma ReachedLeaf(es: Dict, p: seq<string>, n: nat)
    requires 0 < n <= |es| && Loadable(es) && !es[n - 1].val.Section?
    requires ReachedBy(Cells(es, p, n - 1), p, Keys(es[..n - 1]))
    ensures ReachedBy(Cells(es, p, n), p, Keys(es[..n]))
  {
    var k := es[n - 1].key;
    KeysOfPrefix(es, n);
    ReachAddLeaf(Cells(es, p, n - 1), p, Keys(es[..n - 1]), k, LeafWidget(es[n - 1].val));
  }

  /** Adding a leaf widget of the section at `p` keeps every widget reached through the keys, its own key appended. */
  lemma ReachAddLeaf(c: map<Slot, Widget>, p: seq<string>, ks: seq<string>, k: string, w: Widget)
    requires ReachedBy(c, p, ks)
    ensures ReachedBy(c[Slot(p, k) := w], p, ks + [k])
  {
    assert Rel(Slot(p, k), p) == Slot([], k);
  }

  /** Every widget created for the first `n` entries of a section is reached through one of their keys. */
  lemma {:induction false} CellsReached(es: Dict, p: seq<string>, n: nat)
    requires n <= |es| && Loadable(es)
    ensures ReachedBy(Cells(es, p, n), p, Keys(es[..n]))
    decreases Section(es), n
  {
    if n > 0 {
      CellsReached(es, p, n - 1);
      match es[n - 1].val
      case Section(inner) =>
        CellsReached(inner, p + [es[n - 1].key], |inner|);
        assert inner[..|inner|] == inner;
        ReachedSection(es, p, n, inner);
      case _ =>
        ReachedLeaf(es, p, n);
    } else {
      assert Cells(es, p, 0) == map[];
    }
  }

  lemma LinkedSection(es: Dict, p: seq<string>, n: nat, inner: Dict)
    requires 0 < n <= |es| && Loadable(es) && es[n - 1].val == Section(inner)
    requires ReachedBy(Cells(es, p, n - 1), p, Keys(es[..n - 1]))
    requires ReachedBy(Cells(inner, p + [es[n - 1].key], |inner|), p + [es[n - 1].key], Keys(inner))
    requires TextsLinked(Cells(es, p, n - 1), LastTexts(es, p, n - 1))
    requires TextsLinked(Cells(inner, p + [es[n - 1].key], |inner|), LastTexts(inner, p + [es[n - 1].key], |inner|))
    ensures TextsLinked(Cells(es, p, n), LastTexts(es, p, n))
  {
    var k := es[n - 1].key;
    CellsStepSection(es, p, n - 1, inner);
    LastTextsStepSection(es, p, n - 1, inner);
    PrefixKeyIsNew(es, n);
    LinkUnion(Cells(es, p, n - 1), LastTexts(es, p, n - 1), Cells(inner, p + [k], |inner|),
              LastTexts(inner, p + [k], |inner|), p, Keys(es[..n - 1]), k, Keys(inner));
  }

  /**
    * The widgets of a child section `k`, none of which the parent's own
    * widgets can reach, keep the links when joined to the parent's.
    */
  lemma LinkUnion(cp: map<Slot, Widget>, lp: map<seq<string>, Slot>, ci: map<Slot, Widget>, li: map<seq<string>, Slot>,
                  p: seq<string>, ks: seq<string>, k: string, kis: seq<string>)
    requires TextsLinked(cp, lp) && TextsLinked(ci, li)
    requires ReachedBy(cp, p, ks) && ReachedBy(ci, p + [k], kis) && k !in ks
    ensures TextsLinked(cp + ci, lp + li)
  {
    var c, l := cp + ci, lp + li;
    forall q | q in l ensures l[q] in c && l[q].path == q && IsText(c[l[q]]) {
      if q !in li {
        var s := lp[q];
        if s in ci {
          UnderChild(s, p, k);
          assert false;
        }
      }
    }
  }

  lemma LinkedLeaf(es: Dict, p: seq<string>, n: nat)
    requires 0 < n <= |es| && Loadable(es) && !es[n - 1].val.Section?
    requires ReachedBy(Cells(es, p, n - 1), p, Keys(es[..n - 1]))
    requires TextsLinked(Cells(es, p, n - 1), LastTexts(es, p, n - 1))
    ensures TextsLinked(Cells(es, p, n), LastTexts(es, p, n))
  {
    var k, v := es[n - 1].key, es[n - 1].val;
    var w := LeafWidget(v);
    LeafWidgetAgrees(v);
    CellsStepLeaf(es, p, n - 1);
    LastTextsStepLeaf(es, p, n - 1);
    if IsText(w) {
      LinkText(Cells(es, p, n - 1), LastTexts(es, p, n - 1), Slot(p, k), w);
    } else {
      PrefixKeyIsNew(es, n);
      NotReached(Cells(es, p, n - 1), p, Keys(es[..n - 1]), k);
      LinkOther(Cells(es, p, n - 1), LastTexts(es, p, n - 1), Slot(p, k), w);
    }
  }

  /** A key outside `ks` names no widget that `ks` reaches. */
  lemma NotReached(c: map<Slot, Widget>, p: seq<string>, ks: seq<string>, k: string)
    requires ReachedBy(c, p, ks) && k !in ks
    ensures Slot(p, k) !in c
  {
    assert Rel(Slot(p, k), p) == Slot([], k);
  }

  /** Adding a Text widget, which becomes the last of its section, keeps the links. */
  lemma LinkText(c: map<Slot, Widget>, l: map<seq<string>, Slot>, s: Slot, w: Widget)
    requires TextsLinked(c, l) && IsText(w)
    ensures TextsLinked(c[s := w], l[s.path := s])
  {
  }

  /** Adding a widget of another kind under a new slot keeps the links. */
  lemma LinkOther(c: map<Slot, Widget>, l: map<seq<string>, Slot>, s: Slot, w: Widget)
    requires TextsLinked(c, l) && !IsText(w) && s !in c
    ensures TextsLinked(c[s := w], l)
  {
  }

  /** The last Text widget of each section is a Text widget of that section, and every Text widget's section has one. */
  lemma {:induction false} LastTextsLinked(es: Dict, p: seq<string>, n: nat)
    requires n <= |es| && Loadable(es)
    ensures TextsLinked(Cells(es, p, n), LastTexts(es, p, n))
    decreases Section(es), n
  {
    if n > 0 {
      LastTextsLinked(es, p, n - 1);
      CellsReached(es, p, n - 1);
      match es[n - 1].val
      case Section(inner) =>
        LastTextsLinked(inner, p + [es[n - 1].key], |inner|);
        CellsReached(inner, p + [es[n - 1].key], |inner|);
        assert inner[..|inner|] == inner;
        LinkedSection(es, p, n, inner);
      case _ =>
        LinkedLeaf(es, p, n);
    } else {
      assert Cells(es, p, 0) == map[] && LastTexts(es, p, 0) == map[];
    }
  }

  /**
    * After a load, the tracker and the new widgets are consistent: the
    * tracker holds the old top-level keys and the document's entries, and
    * every widget agrees with the document's leaf it was made for.
    */
  lemma LoadConsistent(fields: Dict, doc: Dict)
    requires WellFormed(fields) && Loadable(doc)
    ensures Consistent(PutAll(fields, doc), Cells(doc, [], |doc|), LastTexts(doc, [], |doc|))
  {
    var f, c := PutAll(fields, doc), Cells(doc, [], |doc|);
    LoadableWellFormed(doc);
    PutAllWellFormed(fields, doc);
    CellsAgree(doc, [], |doc|);
    LastTextsLinked(doc, [], |doc|);
    forall s | s in c ensures Agrees(c[s], TrackedLeaf(f, s)) {
      assert Rel(s, []) == s;
      TrackedLeafPutAll(fields, doc, s);
    }
  }

  /** What `RenderSettings` leaves, run from the top of a tracker on fresh widget maps, is a consistent load. */
  lemma LoadRendered(f0: Dict, doc: Dict, f1: Dict, c1: map<Slot, Widget>, l1: map<seq<string>, Slot>)
    requires WellFormed(f0) && Loadable(doc)
    requires f1 == ReplaceSection(f0, [], SeedInto(SectionAt(f0, []).value, doc, |doc|))
    requires c1 == map[] + Cells(doc, [], |doc|) && l1 == map[] + LastTexts(doc, [], |doc|)
    ensures f1 == PutAll(f0, doc)
    ensures c1 == Cells(doc, [], |doc|) && l1 == LastTexts(doc, [], |doc|)
    ensures Consistent(f1, c1, l1)
  {
    assert SectionAt(f0, []) == Some(f0);
    assert f1 == SeedInto(f0, doc, |doc|);
    SeedIsPutAll(f0, doc, |doc|);
    assert doc[..|doc|] == doc;
    EmptyUnion(Cells(doc, [], |doc|));
    EmptyUnion(LastTexts(doc, [], |doc|));
    LoadConsistent(f0, doc);
  }

  lemma EmptyUnion<K, V>(m: map<K, V>)
    ensures map[] + m == m
  {
  }

  /** A leaf's widget only ever tracks a leaf value. */
  lemma AgreesLeaf(w: Widget, v: Option<Value>)
    requires Agrees(w, v)
    ensures v.Some? && !v.value.Section?
  {
  }

  /**
    * An edit callback that stores `v` for the slot `s` and leaves its widget
    * as `w`, of the same kind, keeps the editor consistent.
    */
  lemma EditConsistent(fields: Dict, cells: map<Slot, Widget>, lastText: map<seq<string>, Slot>, s: Slot, w: Widget, v: Value)
    requires Consistent(fields, cells, lastText) && s in cells
    requires Agrees(w, Some(v)) && (IsText(w) <==> IsText(cells[s]))
    ensures SectionAt(fields, s.path).Some?
    ensures Consistent(PutAt(fields, s.path, s.key, v), cells[s := w], lastText)
  {
    AgreesLeaf(cells[s], TrackedLeaf(fields, s));
    AgreesLeaf(w, Some(v));
    var f := PutAt(fields, s.path, s.key, v);
    var c := cells[s := w];
    EditKeepsShape(fields, s.path, s.key, v);
    forall t | t in c ensures Agrees(c[t], TrackedLeaf(f, t)) {
      EditOnlyThisLeaf(fields, s.path, s.key, v, t);
    }
    LinkSameKind(cells, lastText, s, w);
  }

  /** Changing a widget to one of the same kind that still agrees with the tracker keeps the editor consistent. */
  lemma WidgetConsistent(fields: Dict, cells: map<Slot, Widget>, lastText: map<seq<string>, Slot>, s: Slot, w: Widget)
    requires Consistent(fields, cells, lastText) && s in cells
    requires Agrees(w, TrackedLeaf(fields, s)) && (IsText(w) <==> IsText(cells[s]))
    ensures Consistent(fields, cells[s := w], lastText)
  {
    LinkSameKind(cells, lastText, s, w);
    var c := cells[s := w];
    forall t | t in c ensures Agrees(c[t], TrackedLeaf(fields, t)) {
    }
  }

  /** Replacing a widget by one of the same kind keeps the links between Text widgets. */
  lemma LinkSameKind(c: map<Slot, Widget>, l: map<seq<string>, Slot>, s: Slot, w: Widget)
    requires TextsLinked(c, l) && s in c && (IsText(w) <==> IsText(c[s]))
    ensures TextsLinked(c[s := w], l)
  {
  }

  /** One pass of the loop in `render_settings` puts entry `i`'s seeded value into the section at `path`. */
  lemma SeedStepFields(f0: Dict, path: seq<string>, sec0: Dict, es: Dict, i: nat)
    requires i < |es| && Loadable(es) && SectionAt(f0, path).Some?
    ensures SectionAt(ReplaceSection(f0, path, SeedInto(sec0, es, i)), path).Some?
    ensures PutAt(ReplaceSection(f0, path, SeedInto(sec0, es, i)), path, es[i].key, SeededValue(es, i))
      == ReplaceSection(f0, path, SeedInto(sec0, es, i + 1))
  {
    PutAtAfterReplace(f0, path, SeedInto(sec0, es, i), es[i].key, SeededValue(es, i));
  }

  lemma CellsStepSection(es: Dict, p: seq<string>, i: nat, inner: Dict)
    requires i < |es| && Loadable(es) && es[i].val == Section(inner)
    ensures Loadable(inner) && SeededValue(es, i) == Section(SeedInto([], inner, |inner|))
    ensures Cells(es, p, i + 1) == Cells(es, p, i) + Cells(inner, p + [es[i].key], |inner|)
  {
  }

  lemma LastTextsStepSection(es: Dict, p: seq<string>, i: nat, inner: Dict)
    requires i < |es| && Loadable(es) && es[i].val == Section(inner)
    ensures Loadable(inner)
    ensures LastTexts(es, p, i + 1) == LastTexts(es, p, i) + LastTexts(inner, p + [es[i].key], |inner|)
  {
  }

  lemma CellsStepLeaf(es: Dict, p: seq<string>, i: nat)
    requires i < |es| && Loadable(es) && !es[i].val.Section?
    ensures LeafLoadable(es[i].val) && SeededValue(es, i) == SeededLeaf(es[i].val)
    ensures Cells(es, p, i + 1) == Cells(es, p, i)[Slot(p, es[i].key) := LeafWidget(es[i].val)]
  {
  }

  lemma LastTextsStepLeaf(es: Dict, p: seq<string>, i: nat)
    requires i < |es| && Loadable(es) && !es[i].val.Section?
    ensures LastTexts(es, p, i + 1)
      == if es[i].val.List? || es[i].val.Str? then LastTexts(es, p, i)[p := Slot(p, es[i].key)] else LastTexts(es, p, i)
  {
  }

  lemma UnionAssoc<K, V>(a: map<K, V>, b: map<K, V>, c: map<K, V>)
    ensures (a + b) + c == a + (b + c)
  {
  }

  lemma UnionUpdate<K, V>(a: map<K, V>, b: map<K, V>, k: K, v: V)
    ensures (a + b)[k := v] == a + b[k := v]
  {
  }

  /**
    * The late-bound `text` at work: in a section holding a list `k1` and
    * then a string `k2`, the callbacks of both read `k2`'s widget. So an
    * edit of `k1` (`TypeInList`) stores `ParseListText(x)`, which is `[x]`
    * when `x` is one trimmed line (`PyText.ParseOneLine`), whatever was
    * typed into `k1`'s widget.
    */
  lemma LateBoundTextReadsLastWidget(k1: string, k2: string, items: seq<string>, x: string)
    requires k1 != k2
    ensures var doc := [Entry(k1, List(items)), Entry(k2, Str(x))];
      && Loadable(doc)
      && Slot([], k1) in Cells(doc, [], 2) && Cells(doc, [], 2)[Slot([], k1)].ListText?
      && [] in LastTexts(doc, [], 2) && LastTexts(doc, [], 2)[[]] == Slot([], k2)
      && Cells(doc, [], 2)[Slot([], k2)] == PlainText(x, TextHeight(|x|))
  {
    var doc := [Entry(k1, List(items)), Entry(k2, Str(x))];
    assert UniqueKeys(doc) by {
      forall i, j | 0 <= i < j < |doc| ensures doc[i].key != doc[j].key {
        assert i == 0 && j == 1;
      }
    }
    assert Loadable(doc) by {
      forall i | 0 <= i < |doc| ensures !doc[i].val.Float? && !doc[i].val.Section? {
        assert i == 0 || i == 1;
      }
    }
    assert LastTexts(doc, [], 2) == LastTexts(doc, [], 1)[[] := Slot([], k2)];
    var c1 := map[Slot([], k1) := ListText(ListLayout(items), |items|)];
    assert Cells(doc, [], 1) == c1;
    assert Cells(doc, [], 2) == c1[Slot([], k2) := LeafWidget(Str(x))];
    assert Slot([], k1) != Slot([], k2);
  }

  /** Two clicks on a checkbox store the boolean it started from. */
  lemma ClickTwiceRestores(d: Dict, s: Slot, b: bool)
    requires TrackedLeaf(d, s) == Some(Bool(b))
    ensures SectionAt(d, s.path).Some? && SectionAt(PutAt(d, s.path, s.key, Bool(!b)), s.path).Some?
    ensures PutAt(PutAt(d, s.path, s.key, Bool(!b)), s.path, s.key, Bool(b)) == d
  {
    PutAtTwice(d, s.path, s.key, Bool(!b), Bool(b));
    PutAtSame(d, s.path, s.key, Bool(b));
  }

  /**
    * The editor: the tracker `fields`, which lives for the whole session,
    * the widgets of the latest load by slot, and per section path the slot
    * of the Text widget its list and string callbacks read.
    */
  class Editor {
    var fields: Dict
    var cells: map<Slot, Widget>
    var lastText: map<seq<string>, Slot>

    ghost predicate Valid()
      reads this
    {
      Consistent(fields, cells, lastText)
    }

    /** The module-level `fields = {}`, before any file is loaded. */
    constructor ()
      ensures fields == [] && cells == map[] && lastText == map[]
      ensures Valid()
    {
      fields := [];
      cells := map[];
      lastText := map[];
    }

    /**
      * Loading a document: `render_settings(config, fields, inner_frame)`.
      * The tracker keeps its old top-level keys and gets the document's
      * entries put into it, in order.
      */
    method Load(doc: Dict)
      requires Valid() && Loadable(doc)
      modifies this
      ensures fields == PutAll(old(fields), doc)
      ensures cells == Cells(doc, [], |doc|) && lastText == LastTexts(doc, [], |doc|)
      ensures Valid()
    {
      cells := map[];
      lastText := map[];
      RenderSettings(doc, []);
      LoadRendered(old(fields), doc, fields, cells, lastText);
    }

    /**
      * `render_settings(current_settings, current_fields, parent_frame)`,
      * where `current_fields` is the tracker's section at `path`: every
      * entry of `settings` is seeded into it, in order, and gets its widgets.
      */
    method RenderSettings(settings: Dict, path: seq<string>)
      requires Loadable(settings) && SectionAt(fields, path).Some?
      modifies this
      ensures fields == ReplaceSection(old(fields), path, SeedInto(SectionAt(old(fields), path).value, settings, |settings|))
      ensures cells == old(cells) + Cells(settings, path, |settings|)
      ensures lastText == old(lastText) + LastTexts(settings, path, |settings|)
      decreases Section(settings), 0
    {
      ghost var f0, c0, l0 := fields, cells, lastText;
      ghost var sec0 := SectionAt(fields, path).value;
      ReplaceSame(f0, path);
      for i := 0 to |settings|
        invariant fields == ReplaceSection(f0, path, SeedInto(sec0, settings, i))
        invariant cells == c0 + Cells(settings, path, i)
        invariant lastText == l0 + LastTexts(settings, path, i)
      {
        var key, value := settings[i].key, settings[i].val;
        SeedStepFields(f0, path, sec0, settings, i);
        ghost var c1, l1 := Cells(settings, path, i), LastTexts(settings, path, i);
        if value.Section? {
          CellsStepSection(settings, path, i, value.entries);
          LastTextsStepSection(settings, path, i, value.entries);
          RenderSection(path, key, value.entries);
          UnionAssoc(c0, c1, Cells(value.entries, path + [key], |value.entries|));
          UnionAssoc(l0, l1, LastTexts(value.entries, path + [key], |value.entries|));
        } else {
          CellsStepLeaf(settings, path, i);
          LastTextsStepLeaf(settings, path, i);
          RenderLeaf(path, key, value);
          UnionUpdate(c0, c1, Slot(path, key), LeafWidget(value));
          if value.List? || value.Str? {
            UnionUpdate(l0, l1, path, Slot(path, key));
          }
        }
      }
    }

    /**
      * The loop body of `render_settings` for a section: the tracker gets a
      * fresh dictionary under `key`, and the section is rendered into it.
      */
    method RenderSection(path: seq<string>, key: string, inner: Dict)
      requires Loadable(inner) && SectionAt(fields, path).Some?
      modifies this
      ensures fields == PutAt(old(fields), path, key, Section(SeedInto([], inner, |inner|)))
      ensures cells == old(cells) + Cells(inner, path + [key], |inner|)
      ensures lastText == old(lastText) + LastTexts(inner, path + [key], |inner|)
      decreases Section(inner), 1
    {
      ghost var before := fields;
      fields := PutAt(fields, path, key, Section([]));
      PutAtChildSection(before, path, key, SeedInto([], inner, |inner|));
      RenderSettings(inner, path + [key]);
    }

    /**
      * The widget `render_settings` creates for one leaf and the value it
      * tracks for it: a checkbox for a boolean, an entry for a number, a
      * Text widget for a list or a string.
      */
    method MakeLeaf(value: Value) returns (widget: Widget, stored: Value)
      requires LeafLoadable(value)
      ensures widget == LeafWidget(value) && stored == SeededLeaf(value)
    {
      if value.Bool? {
        widget := Check(value.b);
        stored := Bool(widget.on);
      } else if value.Int? || value.Float? {
        var text := if value.Int? then IntToText(value.n) else value.lit;
        if value.Int? {
          IntTextRoundTrip(value.n);
        }
        widget := NumEntry(text);
        stored := EvaluatedValue(EvalNumber(text));
      } else if value.List? {
        var content := LayoutListText(value.items);
        widget := ListText(content, |value.items|);
        stored := value;
      } else {
        widget := PlainText(value.s, TextHeight(|value.s|));
        stored := value;
      }
    }

    /**
      * The loop body of `render_settings` for a leaf: its widget is created
      * and the tracker's section at `path` stores the value read back from
      * the widget's variable (`var.get()`, `eval(var.get())`) or the value
      * itself.
      */
    method RenderLeaf(path: seq<string>, key: string, value: Value)
      requires SectionAt(fields, path).Some? && LeafLoadable(value)
      modifies this
      ensures fields == PutAt(old(fields), path, key, SeededLeaf(value))
      ensures cells == old(cells)[Slot(path, key) := LeafWidget(value)]
      ensures lastText == if value.List? || value.Str? then old(lastText)[path := Slot(path, key)] else old(lastText)
    {
      var slot := Slot(path, key);
      var widget, stored := MakeLeaf(value);
      var f2 := PutAt(fields, path, key, stored);
      var c2 := cells[slot := widget];
      var texts := if value.List? || value.Str? then lastText[path := slot] else lastText;
      fields, cells, lastText := f2, c2, texts;
    }

    // ----- Edit callbacks -----

    /** `current_fields[key] = v` from a callback of the slot `s`, whose widget is now `w`. */
    method Store(s: Slot, w: Widget, v: Value)
      requires Valid() && s in cells
      requires Agrees(w, Some(v)) && (IsText(w) <==> IsText(cells[s]))
      modifies this
      ensures SectionAt(old(fields), s.path).Some?
      ensures fields == PutAt(old(fields), s.path, s.key, v)
      ensures cells == old(cells)[s := w] && lastText == old(lastText)
      ensures Valid()
    {
      EditConsistent(fields, cells, lastText, s, w, v);
      var f2, c2 := PutAt(fields, s.path, s.key, v), cells[s := w];
      assert Consistent(f2, c2, lastText);
      fields, cells := f2, c2;
    }

    /**
      * A click on a checkbox: the `<Button-1>` binding runs before Tk's own
      * toggle, so it stores the negation of the variable as read at click
      * time; then the variable flips. The tracked boolean and the variable
      * agree again afterwards.
      */
    method ClickCheckbox(s: Slot)
      requires Valid() && s in cells && cells[s].Check?
      modifies this
      ensures SectionAt(old(fields), s.path).Some?
      ensures fields == PutAt(old(fields), s.path, s.key, Bool(!old(cells)[s].on))
      ensures cells == old(cells)[s := Check(!old(cells)[s].on)] && lastText == old(lastText)
      ensures TrackedLeaf(fields, s) == Some(Bool(cells[s].on))
      ensures Valid()
    {
      var on := cells[s].on;
      Store(s, Check(!on), Bool(!on));
    }

    /**
      * A keystroke in a number entry: the filter admits the proposed text
      * only when it is empty or a number; then the `<KeyRelease>` binding
      * stores `eval` of the entry's text, unless `eval` raises, in which case
      * the tracker is left as it was.
      */
    method NumberKey(s: Slot, proposed: string) returns (raised: bool)
      requires Valid() && s in cells && cells[s].NumEntry?
      modifies this
      ensures SectionAt(old(fields), s.path).Some?
      ensures cells == old(cells)[s := NumEntry(if ValidateNumberInput(proposed) then proposed else old(cells)[s].text)]
      ensures ValidateNumberInput(cells[s].text)
      ensures raised <==> EvalNumber(cells[s].text).Raises?
      ensures fields == if raised then old(fields) else PutAt(old(fields), s.path, s.key, EvaluatedValue(EvalNumber(cells[s].text)))
      ensures lastText == old(lastText)
      ensures Valid()
    {
      AgreesLeaf(cells[s], TrackedLeaf(fields, s));
      var text := cells[s].text;
      if ValidateNumberInput(proposed) {
        text := proposed;
      }
      var w := NumEntry(text);
      var e := EvalNumber(text);
      raised := e.Raises?;
      if raised {
        WidgetConsistent(fields, cells, lastText, s, w);
        cells := cells[s := w];
      } else {
        Store(s, w, EvaluatedValue(e));
      }
    }

    /**
      * Typing into a list's Text widget, as written: the `<KeyRelease>`
      * callback stores, under its own key, the parse of the widget its
      * section's late-bound `text` names, which is the section's last Text
      * widget and not necessarily the one typed into.
      */
    method TypeInList(s: Slot, content: string)
      requires Valid() && s in cells && cells[s].ListText?
      modifies this
      ensures SectionAt(old(fields), s.path).Some? && s.path in lastText
      ensures cells == old(cells)[s := ListText(content, old(cells)[s].height)] && lastText == old(lastText)
      ensures IsText(cells[lastText[s.path]])
      ensures fields == PutAt(old(fields), s.path, s.key, List(ParseListText(cells[lastText[s.path]].content)))
      ensures lastText[s.path] == s ==> fields == PutAt(old(fields), s.path, s.key, List(ParseListText(content)))
      ensures Valid()
    {
      var w := ListText(content, cells[s].height);
      var shown := cells[s := w][lastText[s.path]];
      Store(s, w, List(ParseListText(shown.content)));
    }

    /** Typing into a list's Text widget, reading the widget typed into: the list parsed from its own content is stored. */
    method TypeInListFixed(s: Slot, content: string)
      requires Valid() && s in cells && cells[s].ListText?
      modifies this
      ensures SectionAt(old(fields), s.path).Some?
      ensures cells == old(cells)[s := ListText(content, old(cells)[s].height)] && lastText == old(lastText)
      ensures fields == PutAt(old(fields), s.path, s.key, List(ParseListText(content)))
      ensures Valid()
    {
      Store(s, ListText(content, cells[s].height), List(ParseListText(content)));
    }

    /**
      * Typing into a string's Text widget, as written: the callback stores,
      * under its own key, the stripped content of the section's last Text
      * widget.
      */
    method TypeInText(s: Slot, content: string)
      requires Valid() && s in cells && cells[s].PlainText?
      modifies this
      ensures SectionAt(old(fields), s.path).Some? && s.path in lastText
      ensures cells == old(cells)[s := PlainText(content, old(cells)[s].height)] && lastText == old(lastText)
      ensures IsText(cells[lastText[s.path]])
      ensures fields == PutAt(old(fields), s.path, s.key, Str(ParseText(cells[lastText[s.path]].content)))
      ensures lastText[s.path] == s ==> fields == PutAt(old(fields), s.path, s.key, Str(ParseText(content)))
      ensures Valid()
    {
      var w := PlainText(content, cells[s].height);
      var shown := cells[s := w][lastText[s.path]];
      Store(s, w, Str(ParseText(shown.content)));
    }

    /** Typing into a string's Text widget, reading the widget typed into: its own stripped content is stored. */
    method TypeInTextFixed(s: Slot, content: string)
      requires Valid() && s in cells && cells[s].PlainText?
      modifies this
      ensures SectionAt(old(fields), s.path).Some?
      ensures cells == old(cells)[s := PlainText(content, old(cells)[s].height)] && lastText == old(lastText)
      ensures fields == PutAt(old(fields), s.path, s.key, Str(ParseText(content)))
      ensures Valid()
    {
      Store(s, PlainText(content, cells[s].height), Str(ParseText(content)));
    }
  }
}
