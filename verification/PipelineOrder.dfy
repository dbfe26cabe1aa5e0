/** The order in which messages travel, per source interface and priority. */
module PipelineOrder {
  import opened Tracking

  datatype Tag = Tag(source: nat, priority: nat, number: nat)

  function TagOf(d: Descriptor): Tag {
    Tag(d.source, d.priority, d.number)
  }

  function Tags(ds: seq<Descriptor>): (r: seq<Tag>)
    ensures |r| == |ds| && forall i :: 0 <= i < |r| ==> r[i] == TagOf(ds[i])
  {
    seq(|ds|, i requires 0 <= i < |ds| => TagOf(ds[i]))
  }

  predicate Of(t: Tag, source: nat, priority: nat) {
    t.source == source && t.priority == priority
  }

  /** Numbers rise along the line, and none has been reached yet. */
  predicate Ordered(line: seq<Tag>, source: nat, priority: nat, next: nat) {
    && (forall i, j :: 0 <= i < j < |line| && Of(line[i], source, priority) && Of(line[j], source, priority) ==>
         line[i].number < line[j].number)
    && (forall i :: 0 <= i < |line| && Of(line[i], source, priority) ==> line[i].number < next)
  }

  lemma Join(a: seq<Descriptor>, b: seq<Descriptor>)
    ensures Tags(a + b) == Tags(a) + Tags(b)
  {
  }

  lemma OrderedDrop(a: seq<Tag>, t: Tag, b: seq<Tag>, source: nat, priority: nat, next: nat)
    requires Ordered(a + [t] + b, source, priority, next)
    ensures Ordered(a + b, source, priority, next)
  {
    var was, now := a + [t] + b, a + b;
    assert forall i :: 0 <= i < |a| ==> was[i] == now[i];
    assert forall i :: |a| <= i < |now| ==> was[i + 1] == now[i];
  }

  lemma OrderedAdd(a: seq<Tag>, t: Tag, source: nat, priority: nat, next: nat)
    requires Ordered(a, source, priority, next) && t.number == next
    ensures Ordered(a + [t], source, priority, next + 1)
  {
  }

  /** A message may overtake messages of other priorities. */
  lemma OrderedForward(a: seq<Tag>, over: seq<Tag>, t: Tag, b: seq<Tag>, source: nat, priority: nat, next: nat)
    requires Ordered(a + over + [t] + b, source, priority, next)
    requires forall i :: 0 <= i < |over| ==> over[i].priority != t.priority
    ensures Ordered(a + [t] + over + b, source, priority, next)
  {
    var was, now := a + over + [t] + b, a + [t] + over + b;
    assert forall i :: 0 <= i < |a| ==> now[i] == was[i];
    assert now[|a|] == was[|a| + |over|] == t;
    assert forall i :: |a| < i <= |a| + |over| ==> now[i] == was[i - 1] && now[i] == over[i - |a| - 1];
    assert forall i :: |a| + |over| < i < |now| ==> now[i] == was[i];
  }

  lemma OrderedForeign(a: seq<Tag>, t: Tag, b: seq<Tag>, source: nat, priority: nat, next: nat)
    requires Ordered(a + b, source, priority, next) && !Of(t, source, priority)
    ensures Ordered(a + [t] + b, source, priority, next)
  {
    var was, now := a + b, a + [t] + b;
    assert forall i :: 0 <= i < |a| ==> was[i] == now[i];
    assert forall i :: |a| < i < |now| ==> now[i] == was[i - 1];
  }

  lemma OrderedLater(line: seq<Tag>, source: nat, priority: nat, next: nat)
    requires Ordered(line, source, priority, next)
    ensures Ordered(line, source, priority, next + 1)
  {
  }
}
