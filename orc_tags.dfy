/** The marker components that hold an orc's behaviour state, and the
    deferred insert/remove commands the orc systems issue on them
    (the `OrcIdle` .. `OrcDeath` tags of src/entity/enemy/orc.rs and
    src/enemy/orc.rs). Commands are applied in the order they were issued,
    after the systems that issued them have run. */
module OrcTags {

  datatype Tag = OrcIdle | OrcWander | OrcChase | OrcAttack | OrcDeath

  /** `commands.entity(e).insert(T)`, `.remove::<T>()` and
      `.remove::<AIPath>()`. */
  datatype Command = Insert(entity: nat, tag: Tag) | Remove(entity: nat, tag: Tag) | RemovePath(entity: nat)

  /** The tags an entity carries, those added since the enter system of the
      tag last ran (what `Added<T>` matches), and whether it has a path. */
  datatype Marks = Marks(tags: set<Tag>, added: set<Tag>, hasPath: bool)

  predicate Valid(m: Marks) {
    m.added <= m.tags
  }

  /** One command: an insert of a tag the entity lacks makes it newly added,
      an insert of a tag it has changes nothing, a remove drops the tag. */
  function Apply(m: Marks, c: Command): (r: Marks)
    ensures Valid(m) ==> Valid(r)
    ensures c.Insert? ==> r.tags == m.tags + {c.tag} && r.hasPath == m.hasPath
    ensures c.Insert? ==> (c.tag in r.added <==> c.tag in m.added || c.tag !in m.tags)
    ensures c.Remove? ==> r.tags == m.tags - {c.tag} && r.hasPath == m.hasPath && c.tag !in r.added
    ensures c.RemovePath? ==> r == m.(hasPath := false)
  {
    match c
    case Insert(_, t) => m.(tags := m.tags + {t}, added := if t in m.tags then m.added else m.added + {t})
    case Remove(_, t) => m.(tags := m.tags - {t}, added := m.added - {t})
    case RemovePath(_) => m.(hasPath := false)
  }

  /** A list of commands, applied first to last. */
  function ApplyAll(m: Marks, cs: seq<Command>): Marks
    decreases |cs|
  {
    if cs == [] then m else Apply(ApplyAll(m, cs[..|cs| - 1]), cs[|cs| - 1])
  }

  lemma ApplyAllStep(m: Marks, cs: seq<Command>, c: Command)
    ensures ApplyAll(m, cs + [c]) == Apply(ApplyAll(m, cs), c)
  {
    assert (cs + [c])[..|cs|] == cs;
  }

  /** Applying two lists one after the other is applying their
      concatenation. */
  lemma {:induction false} ApplyAllConcat(m: Marks, a: seq<Command>, b: seq<Command>)
    ensures ApplyAll(m, a + b) == ApplyAll(ApplyAll(m, a), b)
    decreases |b|
  {
    if b == [] {
      assert a + b == a;
    } else {
      var last := b[|b| - 1];
      var init := b[..|b| - 1];
      assert a + b == (a + init) + [last];
      assert b == init + [last];
      ApplyAllStep(m, a + init, last);
      ApplyAllStep(ApplyAll(m, a), init, last);
      ApplyAllConcat(m, a, init);
    }
  }

  /** `.remove::<From>().insert(To)`: the state change every transition
      issues. */
  function Swap(k: nat, from: Tag, to: Tag): (r: seq<Command>)
    ensures |r| == 2 && Targets(r, k)
  {
    [Remove(k, from), Insert(k, to)]
  }

  /** A swap replaces one tag by another; the new tag counts as added unless
      the entity already had it, and the path flag is kept. */
  lemma SwapMoves(m: Marks, k: nat, from: Tag, to: Tag)
    requires from != to
    ensures var r := ApplyAll(m, Swap(k, from, to));
      && r.tags == m.tags - {from} + {to}
      && r.hasPath == m.hasPath
      && (to in r.added <==> to in m.added || to !in m.tags)
      && from !in r.added
  {
    ApplyAllStep(m, [], Remove(k, from));
    ApplyAllStep(m, [Remove(k, from)], Insert(k, to));
    assert [] + [Remove(k, from)] == [Remove(k, from)];
    assert [Remove(k, from)] + [Insert(k, to)] == Swap(k, from, to);
  }

  /** Every command of the list is for entity `k`. */
  predicate Targets(cs: seq<Command>, k: nat) {
    forall c | c in cs :: c.entity == k
  }

  /** The commands for entity `k`, in the order they were issued. */
  function For(cs: seq<Command>, k: nat): (r: seq<Command>)
    ensures Targets(r, k)
    ensures forall c :: c in r <==> c in cs && c.entity == k
    decreases |cs|
  {
    if cs == [] then []
    else For(cs[..|cs| - 1], k) + (if cs[|cs| - 1].entity == k then [cs[|cs| - 1]] else [])
  }

  /** Selecting the commands of one entity distributes over concatenation. */
  lemma {:induction false} ForConcat(a: seq<Command>, b: seq<Command>, k: nat)
    ensures For(a + b, k) == For(a, k) + For(b, k)
    decreases |b|
  {
    if b == [] {
      assert a + b == a;
    } else {
      var init := b[..|b| - 1];
      assert (a + b)[..|a + b| - 1] == a + init;
      ForConcat(a, init, k);
    }
  }

  /** A list issued for one entity is all that entity gets from it. */
  lemma {:induction false} ForOwn(cs: seq<Command>, j: nat, k: nat)
    requires Targets(cs, j)
    ensures For(cs, k) == if j == k then cs else []
    decreases |cs|
  {
    if cs != [] {
      var init := cs[..|cs| - 1];
      assert cs[|cs| - 1] in cs;
      assert Targets(init, j) by {
        forall c | c in init ensures c.entity == j {
          assert c in cs;
        }
      }
      ForOwn(init, j, k);
      if j == k {
        assert init + [cs[|cs| - 1]] == cs;
      }
    }
  }

  /** A non-empty list of inserts of one tag leaves the entity with it. */
  lemma {:induction false} InsertsOnly(m: Marks, cs: seq<Command>, t: Tag)
    requires cs != []
    requires forall c | c in cs :: c.Insert? && c.tag == t
    ensures t in ApplyAll(m, cs).tags
    decreases |cs|
  {
    assert cs[|cs| - 1] in cs;
  }
}
