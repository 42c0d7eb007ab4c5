/** Symbolic links of an owned tree: the recursive resolver with its set of active links, against
    plain segment-by-segment expansion that knows nothing of cycles. */
module TreeLayout {
  import opened Texts
  import opened ReleaseModel

  datatype Entry = Directory | File | Symlink(target: Text)

  type Entries = map<Text, Entry>

  type Path = seq<Text>

  const SLASH: CodeUnit := 47

  const DOT: Text := [46]
  const DOT_DOT: Text := [46, 46]

  // ---- Splitting and joining on "/" ----

  /** `t.split("/")`: always at least one part. */
  function Split(t: Text): (r: Path)
    ensures r != [] && SlashFree(r)
  {
    if t == [] then [[]]
    else
      var rest := Split(t[1..]);
      if t[0] == SLASH then [[]] + rest else [[t[0]] + rest[0]] + rest[1..]
  }

  predicate SlashFree(parts: Path) {
    forall i :: 0 <= i < |parts| ==> SLASH !in parts[i]
  }

  /** `parts.join("/")`. */
  function Join(parts: Path): Text {
    if parts == [] then []
    else if |parts| == 1 then parts[0]
    else parts[0] + [SLASH] + Join(parts[1..])
  }

  lemma FirstSlash(a: Text, b: Text, x: Text, y: Text)
    requires SLASH !in a && SLASH !in b
    requires a + x == b + y && (x == [] || x[0] == SLASH) && (y == [] || y[0] == SLASH)
    ensures a == b && x == y
  {
    var t := a + x;
    assert forall i :: 0 <= i < |a| ==> t[i] == a[i] && a[i] in a;
    assert forall i :: 0 <= i < |b| ==> t[i] == b[i] && b[i] in b;
    assert x != [] ==> t[|a|] == SLASH;
    assert y != [] ==> t[|b|] == SLASH;
    assert |a| == |b|;
    assert a == t[..|a|] && b == t[..|b|] && x == t[|a|..] && y == t[|b|..];
  }

  /** A name in the tree has one spelling. */
  lemma {:induction false} JoinInjective(a: Path, b: Path)
    requires a != [] && b != [] && SlashFree(a) && SlashFree(b) && Join(a) == Join(b)
    ensures a == b
  {
    var x := if |a| == 1 then [] else [SLASH] + Join(a[1..]);
    var y := if |b| == 1 then [] else [SLASH] + Join(b[1..]);
    assert Join(a) == a[0] + x && Join(b) == b[0] + y;
    FirstSlash(a[0], b[0], x, y);
    assert a == [a[0]] + a[1..] && b == [b[0]] + b[1..];
    if |a| > 1 {
      assert x[1..] == Join(a[1..]) && y[1..] == Join(b[1..]);
      JoinInjective(a[1..], b[1..]);
    }
  }

  // ---- One segment ----

  predicate IsLetter(u: CodeUnit) {
    65 <= u <= 90 || 97 <= u <= 122
  }

  /** A drive letter, an absolute path, a backslash or a NUL. */
  predicate Nonportable(target: Text) {
    || (|target| >= 2 && IsLetter(target[0]) && target[1] == 58)
    || (|target| >= 1 && target[0] == SLASH)
    || 92 in target || 0 in target
  }

  datatype Hop = Moved(to: Path) | Link(name: Text, target: Text) | Refused(refusal: Refusal)

  /** What one segment does from a position in the tree. */
  function HopFrom(entries: Entries, current: Path, part: Text): Hop {
    if current != [] && (Join(current) !in entries || entries[Join(current)] != Directory) then Refused(LinkTraversesFile)
    else if part == [] || part == DOT then Moved(current)
    else if part == DOT_DOT then
      if current == [] then Refused(LinkEscapesTree) else Moved(current[..|current| - 1])
    else
      var name := Join(current + [part]);
      if name !in entries then Refused(LinkAbsent)
      else if !entries[name].Symlink? then Moved(current + [part])
      else Link(name, entries[name].target)
  }

  /** The directory the tree records at this position; the root is one without a record. */
  predicate StandsOn(entries: Entries, current: Path) {
    current == [] || (Join(current) in entries && entries[Join(current)] == Directory)
  }

  /** One segment steps to a place only from a recorded directory: it stays for nothing or a dot, goes up for two dots
      unless at the root, goes to a recorded entry that is no link, and otherwise is refused or follows the link. */
  lemma HopMeans(entries: Entries, current: Path, part: Text, to: Path)
    ensures HopFrom(entries, current, part) == Moved(to) <==>
      && StandsOn(entries, current)
      && (|| (part in {[], DOT} && to == current)
          || (part == DOT_DOT && current != [] && exists last :: current == to + [last])
          || (&& part !in {[], DOT, DOT_DOT} && to == current + [part] && Join(to) in entries && !entries[Join(to)].Symlink?))
    ensures HopFrom(entries, current, part).Link? <==>
      && StandsOn(entries, current) && part !in {[], DOT, DOT_DOT}
      && Join(current + [part]) in entries && entries[Join(current + [part])].Symlink?
    ensures HopFrom(entries, current, part) == Refused(LinkTraversesFile) <==> !StandsOn(entries, current)
    ensures HopFrom(entries, current, part) == Refused(LinkEscapesTree) <==> part == DOT_DOT && current == []
    ensures HopFrom(entries, current, part) == Refused(LinkAbsent) <==>
      StandsOn(entries, current) && part !in {[], DOT, DOT_DOT} && Join(current + [part]) !in entries
  {
    if current != [] {
      assert current == current[..|current| - 1] + [current[|current| - 1]];
    }
  }

  // ---- The resolver ----

  /** `resolveLink`: a link is expanded before the rest of the path, unless it is already being expanded. */
  function Resolve(entries: Entries, parts: Path, current: Path, active: set<Text>): Result<Path>
    decreases |entries.Keys - active|, |parts|
  {
    if parts == [] then Ok(current)
    else
      match HopFrom(entries, current, parts[0])
      case Refused(refusal) => Fail(refusal)
      case Moved(to) => Resolve(entries, parts[1..], to, active)
      case Link(name, target) =>
        if name in active then Fail(LinkCycle)
        else if Nonportable(target) then Fail(LinkNonportable)
        else
          FewerLeft(entries, active, name);
          match Resolve(entries, Split(target), current, active + {name})
          case Fail(refusal) => Fail(refusal)
          case Ok(to) => Resolve(entries, parts[1..], to, active)
  }

  lemma FewerLeft(entries: Entries, active: set<Text>, name: Text)
    requires name in entries && name !in active
    ensures |entries.Keys - (active + {name})| < |entries.Keys - active|
  {
    assert entries.Keys - (active + {name}) == entries.Keys - active - {name};
  }

  /** The resolution loop, which calls itself for each link it meets. */
  method ResolveLink(entries: Entries, parts: Path, base: Path, active: set<Text>) returns (r: Result<Path>)
    ensures r == Resolve(entries, parts, base, active)
    decreases |entries.Keys - active|
  {
    var current := base;
    assert parts[0..] == parts;
    for k := 0 to |parts|
      invariant Resolve(entries, parts[k..], current, active) == Resolve(entries, parts, base, active)
    {
      assert parts[k..][1..] == parts[k + 1..];
      match HopFrom(entries, current, parts[k]) {
        case Refused(refusal) =>
          return Fail(refusal);
        case Moved(to) =>
          current := to;
        case Link(name, target) =>
          if name in active {
            return Fail(LinkCycle);
          }
          if Nonportable(target) {
            return Fail(LinkNonportable);
          }
          FewerLeft(entries, active, name);
          var expanded := ResolveLink(entries, Split(target), current, active + {name});
          if expanded.Fail? {
            return expanded;
          }
          current := expanded.value;
      }
    }
    r := Ok(current);
  }

  // ---- Plain expansion: replace a link by its target, and go on ----

  datatype State = Running(current: Path, todo: Path) | Halted(outcome: Result<Path>)

  function Step(entries: Entries, s: State): State {
    if s.Halted? then s
    else if s.todo == [] then Halted(Ok(s.current))
    else
      match HopFrom(entries, s.current, s.todo[0])
      case Refused(refusal) => Halted(Fail(refusal))
      case Moved(to) => Running(to, s.todo[1..])
      case Link(_, target) =>
        if Nonportable(target) then Halted(Fail(LinkNonportable)) else Running(s.current, Split(target) + s.todo[1..])
  }

  function Exec(entries: Entries, n: nat, s: State): State {
    if n == 0 then s else Exec(entries, n - 1, Step(entries, s))
  }

  ghost predicate Diverges(entries: Entries, s: State) {
    forall n: nat :: Exec(entries, n, s).Running?
  }

  ghost predicate HaltsWith(entries: Entries, s: State, outcome: Result<Path>) {
    exists n: nat :: Exec(entries, n, s) == Halted(outcome)
  }

  lemma {:induction false} ExecAdds(entries: Entries, m: nat, n: nat, s: State)
    ensures Exec(entries, m + n, s) == Exec(entries, n, Exec(entries, m, s))
  {
    if m > 0 {
      ExecAdds(entries, m - 1, n, Step(entries, s));
    }
  }

  lemma {:induction false} HaltedStays(entries: Entries, n: nat, s: State)
    requires s.Halted?
    ensures Exec(entries, n, s) == s
  {
    if n > 0 {
      HaltedStays(entries, n - 1, s);
    }
  }

  /** Segments that are still to come do not change what happens first. */
  lemma {:induction false} MoreToCome(entries: Entries, n: nat, current: Path, todo: Path, more: Path)
    ensures var s := Exec(entries, n, Running(current, todo));
      && (s.Running? ==> Exec(entries, n, Running(current, todo + more)) == Running(s.current, s.todo + more))
      && (s.Halted? && s.outcome.Fail? ==> Exec(entries, n, Running(current, todo + more)) == s)
    decreases n
  {
    if n > 0 {
      var s := Step(entries, Running(current, todo));
      if todo == [] {
        HaltedStays(entries, n - 1, s);
      } else {
        assert (todo + more)[1..] == todo[1..] + more;
        if s.Running? {
          MoreToCome(entries, n - 1, s.current, s.todo, more);
          StepWithMore(entries, current, todo, more);
        } else {
          HaltedStays(entries, n - 1, s);
        }
      }
    }
  }

  lemma StepWithMore(entries: Entries, current: Path, todo: Path, more: Path)
    requires todo != [] && Step(entries, Running(current, todo)).Running?
    ensures var s := Step(entries, Running(current, todo));
      Step(entries, Running(current, todo + more)) == Running(s.current, s.todo + more)
  {
    assert (todo + more)[0] == todo[0] && (todo + more)[1..] == todo[1..] + more;
    match HopFrom(entries, current, todo[0]) {
      case Link(_, target) => assert Split(target) + (todo[1..] + more) == Split(target) + todo[1..] + more;
      case _ =>
    }
  }

  // ---- The resolver computes the expansion ----

  /** Unless it reports a cycle, the resolver's answer is where the expansion ends. */
  lemma {:induction false} ResolveEnds(entries: Entries, parts: Path, current: Path, active: set<Text>) returns (n: nat)
    requires Resolve(entries, parts, current, active) != Fail(LinkCycle)
    ensures var r := Resolve(entries, parts, current, active);
      Exec(entries, n, Running(current, parts)) == if r.Ok? then Running(r.value, []) else Halted(r)
    decreases |entries.Keys - active|, |parts|
  {
    hide HopFrom, Split, Nonportable;
    n := 0;
    if parts != [] {
      var s := Step(entries, Running(current, parts));
      match HopFrom(entries, current, parts[0]) {
        case Refused(_) =>
          HaltedStays(entries, 0, s);
          n := 1;
          assert Exec(entries, 1, Running(current, parts)) == Exec(entries, 0, s);
        case Moved(to) =>
          var m := ResolveEnds(entries, parts[1..], to, active);
          n := m + 1;
        case Link(name, target) =>
          if Nonportable(target) {
            n := 1;
            assert Exec(entries, 1, Running(current, parts)) == Exec(entries, 0, s);
          } else {
            LinkInEntries(entries, current, parts[0]);
            FewerLeft(entries, active, name);
            var m := ResolveEnds(entries, Split(target), current, active + {name});
            var inner := Resolve(entries, Split(target), current, active + {name});
            MoreToCome(entries, m, current, Split(target), parts[1..]);
            n := m + 1;
            if inner.Ok? {
              assert [] + parts[1..] == parts[1..];
              var k := ResolveEnds(entries, parts[1..], inner.value, active);
              ExecAdds(entries, m, k, s);
              n := m + k + 1;
            }
          }
      }
    }
  }

  lemma LinkInEntries(entries: Entries, current: Path, part: Text)
    requires HopFrom(entries, current, part).Link?
    ensures HopFrom(entries, current, part).name == Join(current + [part])
    ensures Join(current + [part]) in entries && part != [] && part != DOT && part != DOT_DOT
    ensures entries[Join(current + [part])] == Symlink(HopFrom(entries, current, part).target)
  {
  }

  // ---- A reported cycle is divergence ----

  /** Coming back to the same place with the same segments in front, the expansion never ends. */
  lemma {:induction false} LoopsForever(entries: Entries, m: nat, current: Path, todo: Path, tail: Path, more: Path, n: nat)
    requires m > 0 && Exec(entries, m, Running(current, todo)) == Running(current, todo + tail)
    ensures Exec(entries, n, Running(current, todo + more)).Running?
    decreases n
  {
    MoreToCome(entries, m, current, todo, more);
    if n < m {
      ExecAdds(entries, n, m - n, Running(current, todo + more));
      if Exec(entries, n, Running(current, todo + more)).Halted? {
        HaltedStays(entries, m - n, Exec(entries, n, Running(current, todo + more)));
      }
    } else {
      ExecAdds(entries, m, n - m, Running(current, todo + more));
      assert todo + tail + more == todo + (tail + more);
      LoopsForever(entries, m, current, todo, tail, tail + more, n - m);
    }
  }

  lemma DivergesAfter(entries: Entries, m: nat, s: State)
    requires Diverges(entries, Exec(entries, m, s))
    ensures Diverges(entries, s)
  {
    forall n: nat ensures Exec(entries, n, s).Running? {
      if n < m {
        ExecAdds(entries, n, m - n, s);
        if Exec(entries, n, s).Halted? {
          HaltedStays(entries, m - n, Exec(entries, n, s));
        }
        assert Exec(entries, 0, Exec(entries, m, s)).Running?;
      } else {
        ExecAdds(entries, m, n - m, s);
      }
    }
  }

  lemma DivergesWithMore(entries: Entries, current: Path, todo: Path, more: Path)
    requires Diverges(entries, Running(current, todo))
    ensures Diverges(entries, Running(current, todo + more))
  {
    forall n: nat ensures Exec(entries, n, Running(current, todo + more)).Running? {
      assert Exec(entries, n, Running(current, todo)).Running?;
      MoreToCome(entries, n, current, todo, more);
    }
  }

  /** The expansion comes to the link of this name. */
  ghost predicate Meets(entries: Entries, s: State, name: Text) {
    exists n: nat :: AtLink(entries, Exec(entries, n, s), name)
  }

  predicate AtLink(entries: Entries, s: State, name: Text) {
    && s.Running? && s.todo != [] && SlashFree(s.current) && SlashFree(s.todo)
    && HopFrom(entries, s.current, s.todo[0]).Link? && HopFrom(entries, s.current, s.todo[0]).name == name
    && !Nonportable(HopFrom(entries, s.current, s.todo[0]).target)
  }

  lemma MeetsAfter(entries: Entries, m: nat, s: State, name: Text)
    requires Meets(entries, Exec(entries, m, s), name)
    ensures Meets(entries, s, name)
  {
    var n: nat :| AtLink(entries, Exec(entries, n, Exec(entries, m, s)), name);
    ExecAdds(entries, m, n, s);
    assert AtLink(entries, Exec(entries, m + n, s), name);
  }

  lemma MeetsWithMore(entries: Entries, current: Path, todo: Path, more: Path, name: Text)
    requires Meets(entries, Running(current, todo), name) && SlashFree(more)
    ensures Meets(entries, Running(current, todo + more), name)
  {
    var n: nat :| AtLink(entries, Exec(entries, n, Running(current, todo)), name);
    MoreToCome(entries, n, current, todo, more);
    assert AtLink(entries, Exec(entries, n, Running(current, todo + more)), name);
  }

  /** The link of a name is met in one place only. */
  lemma LinkPlace(entries: Entries, t: State, current: Path, part: Text)
    requires AtLink(entries, t, Join(current + [part])) && SlashFree(current) && SLASH !in part
    ensures t.Running? && t.todo != [] && t.current == current && t.todo[0] == part
  {
    hide Join;
    LinkInEntries(entries, t.current, t.todo[0]);
    JoinInjective(t.current + [t.todo[0]], current + [part]);
    assert (t.current + [t.todo[0]])[..|t.current|] == t.current && (current + [part])[..|current|] == current;
    assert (t.current + [t.todo[0]])[|t.current|] == t.todo[0] && (current + [part])[|current|] == part;
  }

  lemma StepAtLink(entries: Entries, t: State, name: Text, target: Text)
    requires AtLink(entries, t, name) && HopFrom(entries, t.current, t.todo[0]) == Link(name, target)
    ensures Exec(entries, 1, t) == Running(t.current, Split(target) + t.todo[1..])
  {
    hide HopFrom, Split;
    assert Exec(entries, 1, t) == Exec(entries, 0, Step(entries, t));
  }

  /** A link met again while it is being expanded is met forever. */
  lemma MeetingAgainDiverges(entries: Entries, current: Path, part: Text, target: Text)
    requires HopFrom(entries, current, part) == Link(Join(current + [part]), target)
    requires SlashFree(current) && SLASH !in part
    requires Meets(entries, Running(current, Split(target)), Join(current + [part]))
    ensures Diverges(entries, Running(current, Split(target)))
  {
    hide HopFrom, Split, AtLink, Join, Exec, SlashFree;
    var name, s := Join(current + [part]), Running(current, Split(target));
    var n: nat :| AtLink(entries, Exec(entries, n, s), name);
    var t := Exec(entries, n, s);
    LinkPlace(entries, t, current, part);
    StepAtLink(entries, t, name, target);
    ExecAdds(entries, n, 1, s);
    forall k: nat ensures Exec(entries, k, s).Running? {
      LoopsForever(entries, n + 1, current, Split(target), t.todo[1..], [], k);
      assert Split(target) + [] == Split(target);
    }
  }

  /** A reported cycle: the expansion diverges, or comes to a link that was already active. */
  lemma {:induction false} ResolveCycles(entries: Entries, parts: Path, current: Path, active: set<Text>)
    requires Resolve(entries, parts, current, active) == Fail(LinkCycle)
    requires SlashFree(parts) && SlashFree(current)
    requires forall name :: name in active && name in entries && entries[name].Symlink? ==> !Nonportable(entries[name].target)
    ensures Diverges(entries, Running(current, parts)) || exists name :: name in active && Meets(entries, Running(current, parts), name)
    decreases |entries.Keys - active|, |parts|
  {
    hide Split, Nonportable, Join, Meets, Diverges;
    var s := Running(current, parts);
    assert Exec(entries, 1, s) == Exec(entries, 0, Step(entries, s));
    assert SlashFree(parts[1..]);
    match HopFrom(entries, current, parts[0]) {
      case Refused(_) =>
        NeverRefusesCycle(entries, current, parts[0]);
      case Moved(to) =>
        ResolveCycles(entries, parts[1..], to, active);
        CarryBack(entries, 1, s, active);
      case Link(name, target) =>
        LinkInEntries(entries, current, parts[0]);
        if name in active {
          assert Exec(entries, 0, s) == s;
          MetNow(entries, s, name);
        } else if !Nonportable(target) {
          FewerLeft(entries, active, name);
          FollowCycle(entries, parts, current, active, name, target);
        }
    }
  }

  lemma NeverRefusesCycle(entries: Entries, current: Path, part: Text)
    ensures HopFrom(entries, current, part) != Refused(LinkCycle)
  {
  }

  lemma MetNow(entries: Entries, s: State, name: Text)
    requires AtLink(entries, s, name)
    ensures Meets(entries, s, name)
  {
    assert AtLink(entries, Exec(entries, 0, s), name);
  }

  lemma CarryBack(entries: Entries, m: nat, s: State, active: set<Text>)
    requires Diverges(entries, Exec(entries, m, s)) || exists name :: name in active && Meets(entries, Exec(entries, m, s), name)
    ensures Diverges(entries, s) || exists name :: name in active && Meets(entries, s, name)
  {
    hide Meets, Diverges;
    if Diverges(entries, Exec(entries, m, s)) {
      DivergesAfter(entries, m, s);
    } else {
      var name :| name in active && Meets(entries, Exec(entries, m, s), name);
      MeetsAfter(entries, m, s, name);
    }
  }

  /** The cycle lies inside the expansion of a link, or after it. */
  lemma {:induction false} FollowCycle(
      entries: Entries, parts: Path, current: Path, active: set<Text>, name: Text, target: Text)
    requires parts != [] && HopFrom(entries, current, parts[0]) == Link(name, target)
    requires name in entries && name !in active && !Nonportable(target) && name == Join(current + [parts[0]])
    requires entries[name] == Symlink(target)
    requires Resolve(entries, parts, current, active) == Fail(LinkCycle)
    requires SlashFree(parts) && SlashFree(current)
    requires forall name :: name in active && name in entries && entries[name].Symlink? ==> !Nonportable(entries[name].target)
    requires |entries.Keys - (active + {name})| < |entries.Keys - active|
    ensures Diverges(entries, Running(current, parts)) || exists name :: name in active && Meets(entries, Running(current, parts), name)
    decreases |entries.Keys - active|, |parts|, 0
  {
    hide Nonportable, Meets, Diverges, Split, Join, Exec, HopFrom, Step;
    var s, rest := Running(current, parts), parts[1..];
    var inner := Resolve(entries, Split(target), current, active + {name});
    OneStep(entries, current, parts, name, target);
    if inner.Fail? {
      ResolveCycles(entries, Split(target), current, active + {name});
      CycleInside(entries, current, parts[0], target, active, name, rest);
      CarryBack(entries, 1, s, active);
    } else {
      ResolvedSlashFree(entries, Split(target), current, active + {name});
      ResolveCycles(entries, rest, inner.value, active);
      var m := ResolveEnds(entries, Split(target), current, active + {name});
      MoreToCome(entries, m, current, Split(target), rest);
      assert [] + rest == rest;
      ExecAdds(entries, 1, m, s);
      CarryBack(entries, m + 1, s, active);
    }
  }

  lemma OneStep(entries: Entries, current: Path, parts: Path, name: Text, target: Text)
    requires parts != [] && HopFrom(entries, current, parts[0]) == Link(name, target) && !Nonportable(target)
    ensures Exec(entries, 1, Running(current, parts)) == Running(current, Split(target) + parts[1..])
  {
    hide HopFrom, Split, Nonportable;
    var s := Running(current, parts);
    assert Exec(entries, 1, s) == Exec(entries, 0, Step(entries, s));
  }

  /** The expansion of one link cycles on its own, or comes to a link that was active before it. */
  lemma CycleInside(
      entries: Entries, current: Path, part: Text, target: Text, active: set<Text>, name: Text, rest: Path)
    requires HopFrom(entries, current, part) == Link(name, target) && name == Join(current + [part])
    requires SlashFree(current) && SLASH !in part && SlashFree(rest)
    requires Diverges(entries, Running(current, Split(target)))
          || exists other :: other in active + {name} && Meets(entries, Running(current, Split(target)), other)
    ensures Diverges(entries, Running(current, Split(target) + rest))
         || exists other :: other in active && Meets(entries, Running(current, Split(target) + rest), other)
  {
    hide HopFrom, Split, Join, Meets, Diverges, Exec;
    if Meets(entries, Running(current, Split(target)), name) {
      MeetingAgainDiverges(entries, current, part, target);
    }
    if Diverges(entries, Running(current, Split(target))) {
      DivergesWithMore(entries, current, Split(target), rest);
    } else {
      var other :| other in active + {name} && Meets(entries, Running(current, Split(target)), other);
      MeetsWithMore(entries, current, Split(target), rest, other);
    }
  }

  lemma {:induction false} ResolvedSlashFree(entries: Entries, parts: Path, current: Path, active: set<Text>)
    requires Resolve(entries, parts, current, active).Ok? && SlashFree(parts) && SlashFree(current)
    ensures SlashFree(Resolve(entries, parts, current, active).value)
    decreases |entries.Keys - active|, |parts|
  {
    hide Split, Nonportable, Join;
    if parts != [] {
      assert SlashFree(parts[1..]);
      match HopFrom(entries, current, parts[0]) {
        case Moved(to) => ResolvedSlashFree(entries, parts[1..], to, active);
        case Link(name, target) =>
          LinkInEntries(entries, current, parts[0]);
          FewerLeft(entries, active, name);
          ResolvedSlashFree(entries, Split(target), current, active + {name});
          ResolvedSlashFree(entries, parts[1..], Resolve(entries, Split(target), current, active + {name}).value, active);
      }
    }
  }

  // ---- Exactness ----

  /** The resolver reports a cycle exactly when plain expansion never ends, and otherwise gives
      exactly what plain expansion ends with. */
  lemma ResolveIsExact(entries: Entries, parts: Path, outcome: Result<Path>)
    requires SlashFree(parts)
    ensures var r, s := Resolve(entries, parts, [], {}), Running([], parts);
      && (r == Fail(LinkCycle) <==> Diverges(entries, s))
      && (r == outcome && r != Fail(LinkCycle) <==> HaltsWith(entries, s, outcome))
  {
    hide Resolve, Step;
    var r, s := Resolve(entries, parts, [], {}), Running([], parts);
    if r == Fail(LinkCycle) {
      ResolveCycles(entries, parts, [], {});
      forall n: nat ensures Exec(entries, n, s) != Halted(outcome) {
        assert Exec(entries, n, s).Running?;
      }
    } else {
      var n := ResolveEnds(entries, parts, [], {});
      EndsWith(entries, n, s, r);
      if HaltsWith(entries, s, outcome) {
        HaltsOnce(entries, s, r, outcome);
      }
      var m: nat :| Exec(entries, m, s) == Halted(r);
      assert !Exec(entries, m, s).Running?;
    }
  }

  lemma EndsWith(entries: Entries, n: nat, s: State, r: Result<Path>)
    requires Exec(entries, n, s) == if r.Ok? then Running(r.value, []) else Halted(r)
    ensures HaltsWith(entries, s, r)
  {
    if r.Ok? {
      ExecAdds(entries, n, 1, s);
      assert Exec(entries, 1, Running(r.value, [])) == Exec(entries, 0, Step(entries, Running(r.value, [])));
      assert Exec(entries, n + 1, s) == Halted(r);
    }
  }

  lemma HaltsOnce(entries: Entries, s: State, a: Result<Path>, b: Result<Path>)
    requires HaltsWith(entries, s, a) && HaltsWith(entries, s, b)
    ensures a == b
  {
    var m: nat :| Exec(entries, m, s) == Halted(a);
    var n: nat :| Exec(entries, n, s) == Halted(b);
    if m <= n {
      ExecAdds(entries, m, n - m, s);
      HaltedStays(entries, n - m, Halted(a));
    } else {
      ExecAdds(entries, n, m - n, s);
      HaltedStays(entries, m - n, Halted(b));
    }
  }

  // ---- What a resolved link points to ----

  predicate IsRecorded(entries: Entries, p: Path) {
    Join(p) in entries && !entries[Join(p)].Symlink?
  }

  predicate IsDirectory(entries: Entries, p: Path) {
    Join(p) in entries && entries[Join(p)] == Directory
  }

  /** A path whose every prefix is recorded and no link, every proper one a directory. */
  predicate LinkFree(entries: Entries, p: Path) {
    forall k :: 0 < k <= |p| ==> PrefixOk(entries, p, k)
  }

  predicate PrefixOk(entries: Entries, p: Path, k: int)
    requires 0 < k <= |p|
  {
    && p[k - 1] != [] && p[k - 1] != DOT && p[k - 1] != DOT_DOT
    && IsRecorded(entries, p[..k]) && (k < |p| ==> IsDirectory(entries, p[..k]))
  }

  /** A segment goes up, stays, or goes down from a directory to something recorded. */
  lemma HopShape(entries: Entries, current: Path, part: Text)
    requires HopFrom(entries, current, part).Moved?
    ensures var to := HopFrom(entries, current, part).to;
      || to == current || (current != [] && to == current[..|current| - 1])
      || (to == current + [part] && part != [] && part != DOT && part != DOT_DOT
          && IsRecorded(entries, to) && (current != [] ==> IsDirectory(entries, current)))
  {
    hide Join;
  }

  lemma HopKeepsLinkFree(entries: Entries, current: Path, part: Text)
    requires LinkFree(entries, current) && HopFrom(entries, current, part).Moved?
    ensures LinkFree(entries, HopFrom(entries, current, part).to)
  {
    hide HopFrom, IsRecorded, IsDirectory;
    HopShape(entries, current, part);
    var to := HopFrom(entries, current, part).to;
    forall k | 0 < k <= |to| ensures PrefixOk(entries, to, k) {
      if k <= |current| {
        assert PrefixOk(entries, current, k);
        assert to[..k] == current[..k] && to[k - 1] == current[k - 1];
        assert k == |current| ==> current[..k] == current;
      } else {
        assert to[..k] == to;
      }
    }
  }

  /** A resolved link stays inside the tree, on a path free of links through recorded directories. */
  lemma {:induction false} ResolvedIsLinkFree(entries: Entries, parts: Path, current: Path, active: set<Text>)
    requires Resolve(entries, parts, current, active).Ok? && LinkFree(entries, current)
    ensures LinkFree(entries, Resolve(entries, parts, current, active).value)
    decreases |entries.Keys - active|, |parts|
  {
    hide LinkFree, HopFrom, Split, Nonportable;
    if parts != [] {
      match HopFrom(entries, current, parts[0]) {
        case Moved(to) =>
          HopKeepsLinkFree(entries, current, parts[0]);
          ResolvedIsLinkFree(entries, parts[1..], to, active);
        case Link(name, target) =>
          LinkInEntries(entries, current, parts[0]);
          FewerLeft(entries, active, name);
          ResolvedIsLinkFree(entries, Split(target), current, active + {name});
          ResolvedIsLinkFree(entries, parts[1..], Resolve(entries, Split(target), current, active + {name}).value, active);
      }
    }
  }

  // ---- The check of a whole tree ----

  /** Every symbolic link of the tree leads somewhere. */
  ghost predicate LinksResolve(entries: Entries, paths: seq<Text>) {
    forall i :: 0 <= i < |paths| && paths[i] in entries && entries[paths[i]].Symlink? ==>
      exists p :: HaltsWith(entries, Running([], Split(paths[i])), Ok(p)) && LinkFree(entries, p)
  }

  /** The link part of `checkTree`: it accepts exactly the trees whose links all end inside the tree. */
  method CheckLinks(entries: Entries, paths: seq<Text>) returns (r: Result<()>)
    ensures r.Ok? <==> LinksResolve(entries, paths)
    ensures r == Fail(LinkCycle) ==>
      exists i :: 0 <= i < |paths| && Diverges(entries, Running([], Split(paths[i])))
  {
    hide Resolve, LinkFree, HaltsWith, Split, Diverges;
    for k := 0 to |paths|
      invariant LinksResolve(entries, paths[..k])
    {
      assert paths[..k + 1] == paths[..k] + [paths[k]];
      if paths[k] in entries && entries[paths[k]].Symlink? {
        var resolved := ResolveLink(entries, Split(paths[k]), [], {});
        LinkVerdict(entries, paths[k], resolved);
        if resolved.Fail? {
          return Fail(resolved.refusal);
        }
      }
    }
    assert paths[..|paths|] == paths;
    r := Ok(());
  }

  lemma LinkVerdict(entries: Entries, path: Text, resolved: Result<Path>)
    requires resolved == Resolve(entries, Split(path), [], {})
    ensures resolved.Ok? <==> exists p :: HaltsWith(entries, Running([], Split(path)), Ok(p)) && LinkFree(entries, p)
    ensures resolved == Fail(LinkCycle) ==> Diverges(entries, Running([], Split(path)))
  {
    hide Resolve, HaltsWith, Split, Diverges;
    ResolveIsExact(entries, Split(path), resolved);
    if resolved.Ok? {
      ResolvedIsLinkFree(entries, Split(path), [], {});
    }
    if p :| HaltsWith(entries, Running([], Split(path)), Ok(p)) && LinkFree(entries, p) {
      ResolveIsExact(entries, Split(path), Ok(p));
    }
  }
}
