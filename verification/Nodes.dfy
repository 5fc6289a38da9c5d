/** gui/src/ui/controller/nodes.rs: the node list, the active node, the selected node and its editor draft. */
module Nodes {
  import opened Common
  import opened Draft

  datatype ListCommand = MoveUp | MoveDown | Duplicate | Delete

  /** The working list, the index the core runs, the index the editor shows, and what is typed there. */
  datatype Page = Page(list: seq<Profile>, active: nat, selected: nat, draft: DraftData, errors: seq<(Field, Fault)>)

  /** Commands that change nothing: a row that is gone, a move past an end, deleting the last node. */
  predicate NoOp(len: nat, index: nat, cmd: ListCommand) {
    || index >= len
    || (cmd.MoveUp? && index == 0)
    || (cmd.MoveDown? && index + 1 >= len)
    || (cmd.Delete? && len == 1)
  }

  /** What a command does to any list kept in step with the nodes; `copy` is the duplicate's entry. */
  function Rearranged<T>(s: seq<T>, index: nat, cmd: ListCommand, copy: T): seq<T>
    requires !NoOp(|s|, index, cmd)
  {
    match cmd
    case MoveUp => s[index := s[index - 1]][index - 1 := s[index]]
    case MoveDown => s[index := s[index + 1]][index + 1 := s[index]]
    case Duplicate => s[..index + 1] + [copy] + s[index + 1..]
    case Delete => s[..index] + s[index + 1..]
  }

  /** The code's map from old indices to new ones. */
  function Remap(len: nat, index: nat, cmd: ListCommand, i: nat): nat
    requires !NoOp(len, index, cmd)
  {
    match cmd
    case MoveUp => if i == index then index - 1 else if i == index - 1 then index else i
    case MoveDown => if i == index then index + 1 else if i == index + 1 then index else i
    case Duplicate => if i > index then i + 1 else i
    case Delete => if i > index then i - 1 else Min(i, len - 2)
  }

  function Loaded(p: Page, selected: nat): Page {
    var sel := Min(selected, Max(|p.list| - 1, 0));
    p.(selected := sel, draft := if sel < |p.list| then FromProfile(p.list[sel]) else DEFAULT_DRAFT, errors := [])
  }

  function CommandSpec(p: Page, index: nat, cmd: ListCommand): Page {
    if NoOp(|p.list|, index, cmd) then p
    else
      var q := p.(list := Rearranged(p.list, index, cmd, p.list[index]),
          active := Remap(|p.list|, index, cmd, p.active));
      if cmd.Duplicate? then Loaded(q, index + 1)
      else if cmd.Delete? && p.selected == index then Loaded(q, Remap(|p.list|, index, cmd, p.selected))
      else q.(selected := Remap(|p.list|, index, cmd, p.selected))
  }

  function AddSpec(p: Page, name: string): Page {
    Loaded(p.(list := p.list + [DEFAULT_PROFILE.(name := name)]), |p.list|)
  }

  function SelectSpec(p: Page, index: nat): Page {
    if index == p.selected || index >= |p.list| then p else Loaded(p, index)
  }

  function EditSpec(p: Page, d: DraftData): Page {
    var q := p.(draft := d, errors := Errors(d));
    if p.selected < |p.list| then q.(list := p.list[p.selected := ApplySpec(d, p.list[p.selected])]) else q
  }

  /** An incomplete node never becomes active. */
  function SetActiveSpec(p: Page): Page {
    if p.selected < |p.list| && Missing(FromProfile(p.list[p.selected])) == [] then p.(active := p.selected) else p
  }

  /** `NodesState::new` over a loaded list. */
  function StartSpec(list: seq<Profile>, active: nat): Page {
    Loaded(Page(list, active, 0, DEFAULT_DRAFT, []), active)
  }

  datatype Change = Overview | NodeRows | Editor

  /** The controller's own fields. */
  class NodePage {
    var list: seq<Profile>
    var active: nat
    var selected: nat
    var draft: DraftData
    var errors: seq<(Field, Fault)>

    function Value(): Page
      reads this
    {
      Page(list, active, selected, draft, errors)
    }

    constructor (list: seq<Profile>, active: nat)
      ensures Value() == StartSpec(list, active)
    {
      var last := if |list| == 0 then 0 else |list| - 1;
      this.list, this.active, errors := list, active, [];
      selected := Min(active, last);
      draft := if Min(active, last) < |list| then FromProfile(list[Min(active, last)]) else DEFAULT_DRAFT;
    }

    /** `load_selected`. */
    method LoadSelected() returns (changes: set<Change>)
      modifies this
      ensures Value() == Loaded(old(Value()), old(selected)) && changes == {Editor}
    {
      var last := if |list| == 0 then 0 else |list| - 1;
      selected := Min(selected, last);
      draft := if selected < |list| then FromProfile(list[selected]) else DEFAULT_DRAFT;
      errors := [];
      changes := {Editor};
    }

    /** `select_node`. */
    method SelectNode(index: nat) returns (changes: set<Change>)
      modifies this
      ensures Value() == SelectSpec(old(Value()), index)
      ensures changes == {} ==> Value() == old(Value())
    {
      if index == selected || index >= |list| {
        return {};
      }
      selected := index;
      changes := LoadSelected();
    }

    /** `add_node`. */
    method AddNode(name: string) returns (changes: set<Change>)
      modifies this
      ensures Value() == AddSpec(old(Value()), name)
    {
      list := list + [DEFAULT_PROFILE.(name := name)];
      selected := |list| - 1;
      changes := LoadSelected();
    }

    /** `node_command`. */
    method NodeCommand(index: nat, cmd: ListCommand) returns (changes: set<Change>)
      modifies this
      ensures Value() == CommandSpec(old(Value()), index, cmd)
      ensures changes == {} <==> NoOp(|old(list)|, index, cmd)
    {
      hide FromProfile;
      ghost var p := Value();
      var len := |list|;
      if index >= len {
        return {};
      }
      var wasSelected := selected;
      var remap: nat -> nat;
      match cmd {
        case MoveUp =>
          if index == 0 {
            return {};
          }
          var other := index - 1;
          list := list[index := list[other]][other := list[index]];
          remap := i => if i == index then other else if i == other then index else i;
        case MoveDown =>
          if index + 1 >= len {
            return {};
          }
          var other := index + 1;
          list := list[index := list[other]][other := list[index]];
          remap := i => if i == index then other else if i == other then index else i;
        case Duplicate =>
          list := list[..index + 1] + [list[index]] + list[index + 1..];
          remap := i => if i > index then i + 1 else i;
        case Delete =>
          if len == 1 {
            return {};
          }
          list := list[..index] + list[index + 1..];
          remap := i => if i > index then i - 1 else Min(i, len - 2);
      }
      assert list == Rearranged(p.list, index, cmd, p.list[index]);
      assert remap(active) == Remap(len, index, cmd, p.active)
          && remap(wasSelected) == Remap(len, index, cmd, p.selected);
      hide Rearranged, Remap;
      changes := {Overview, NodeRows};
      active := remap(active);
      if cmd.Duplicate? {
        selected := index + 1;
        var more := LoadSelected();
        changes := changes + more;
      } else if cmd.Delete? && wasSelected == index {
        selected := remap(wasSelected);
        var more := LoadSelected();
        changes := changes + more;
      } else {
        selected := remap(wasSelected);
      }
    }

    /** `commit_draft` after an editor field changed. */
    method EditNode(d: DraftData) returns (changes: set<Change>)
      modifies this
      ensures Value() == EditSpec(old(Value()), d)
      ensures Overview in changes <==> list != old(list) && selected == active
    {
      hide Errors, ApplySpec;
      draft := d;
      errors := Errors(d);
      changes := {NodeRows};
      if selected >= |list| {
        return;
      }
      var slot := new ProfileSlot(list[selected]);
      slot.Apply(d);
      var before := list;
      list := list[selected := slot.profile];
      if slot.profile == before[selected] {
        assert list == before;
        return;
      }
      assert list[selected] != before[selected];
      if selected == active {
        changes := changes + {Overview};
      }
    }

    /** `set_active_node`. */
    method SetActiveNode() returns (changes: set<Change>)
      modifies this
      ensures Value() == SetActiveSpec(old(Value()))
    {
      if selected >= |list| {
        return {};
      }
      var target := list[selected];
      if |MissingFields(target.protocol, target.server, target.uuid, target.password, target.cipher)| != 0 {
        return {};
      }
      active := selected;
      changes := {Overview, NodeRows};
    }
  }

  // ---------------------------------------------------------------- the index map

  predicate Survives(index: nat, cmd: ListCommand, i: nat) { !(cmd.Delete? && i == index) }

  /** The map is exact: every surviving entry is found where the map says, no two share a place, and every place is
      filled by a survivor or by the duplicate. */
  lemma RemapIsExact<T>(s: seq<T>, index: nat, cmd: ListCommand, copy: T)
    requires !NoOp(|s|, index, cmd)
    ensures var t, n := Rearranged(s, index, cmd, copy), |s|;
            && (forall i: nat | i < n && Survives(index, cmd, i) ::
                  Remap(n, index, cmd, i) < |t| && t[Remap(n, index, cmd, i)] == s[i])
            && (forall i: nat, j: nat | i < n && j < n && Survives(index, cmd, i) && Survives(index, cmd, j)
                  && Remap(n, index, cmd, i) == Remap(n, index, cmd, j) :: i == j)
            && (cmd.Duplicate? ==>
                  t[index + 1] == copy && forall i: nat | i < n :: Remap(n, index, cmd, i) != index + 1)
            && |t| == (if cmd.Duplicate? then n + 1 else if cmd.Delete? then n - 1 else n)
  {
  }

  /** The deleted index itself is sent to the node that takes its place, or to the new last one. */
  lemma DeletedGoesToNeighbour<T>(s: seq<T>, index: nat, copy: T)
    requires !NoOp(|s|, index, Delete)
    ensures var t := Rearranged(s, index, Delete, copy);
            && Remap(|s|, index, Delete, index) < |t| == |s| - 1
            && t[Remap(|s|, index, Delete, index)] == if index + 1 < |s| then s[index + 1] else s[index - 1]
  {
  }

  // ---------------------------------------------------------------- runs

  datatype Event =
    | Command(index: nat, cmd: ListCommand)
    | Add(name: string)
    | Select(index: nat)
    | Edit(draft: DraftData)
    | SetActive

  /** The page with an identity for every node: positions move with the nodes, additions and copies get new ones. */
  datatype Tagged = Tagged(page: Page, ids: seq<nat>, next: nat)

  function Step(t: Tagged, e: Event): Tagged
    requires |t.ids| == |t.page.list|
  {
    match e
    case Command(i, cmd) =>
      if NoOp(|t.ids|, i, cmd) then t
      else Tagged(CommandSpec(t.page, i, cmd), Rearranged(t.ids, i, cmd, t.next),
                  if cmd.Duplicate? then t.next + 1 else t.next)
    case Add(name) => Tagged(AddSpec(t.page, name), t.ids + [t.next], t.next + 1)
    case Select(i) => t.(page := SelectSpec(t.page, i))
    case Edit(d) => t.(page := EditSpec(t.page, d))
    case SetActive => t.(page := SetActiveSpec(t.page))
  }

  function Start(list: seq<Profile>, active: nat): Tagged {
    Tagged(StartSpec(list, active), seq(|list|, i => i), |list|)
  }

  function Run(t: Tagged, es: seq<Event>): (r: Tagged)
    requires |t.ids| == |t.page.list|
    ensures |r.ids| == |r.page.list|
  {
    if es == [] then t
    else
      var before := Run(t, es[..|es| - 1]);
      StepKeepsLengths(before, es[|es| - 1]);
      Step(before, es[|es| - 1])
  }

  lemma StepKeepsLengths(t: Tagged, e: Event)
    requires |t.ids| == |t.page.list|
    ensures |Step(t, e).ids| == |Step(t, e).page.list|
  {
    hide FromProfile, ApplySpec, Errors, Missing;
  }

  ghost predicate IdsOk(t: Tagged) {
    && |t.ids| == |t.page.list|
    && (forall i | 0 <= i < |t.ids| :: t.ids[i] < t.next)
    && (forall i, j | 0 <= i < j < |t.ids| :: t.ids[i] != t.ids[j])
  }

  ghost predicate IndicesOk(t: Tagged) {
    && t.page.list != []
    && t.page.active < |t.page.list|
    && t.page.selected < |t.page.list|
  }

  /** Writing the draft once more would change nothing: the list holds everything the editor could save. */
  ghost predicate DraftOk(p: Page) {
    p.selected < |p.list| && ApplySpec(p.draft, p.list[p.selected]) == p.list[p.selected]
  }

  ghost predicate Inv(t: Tagged) {
    IdsOk(t) && IndicesOk(t) && DraftOk(t.page)
  }

  lemma LoadedDraft(p: Page, selected: nat)
    requires p.list != []
    ensures DraftOk(Loaded(p, selected))
  {
    var q := Loaded(p, selected);
    GetPut(q.list[q.selected]);
    hide ApplySpec, FromProfile;
  }

  lemma CommandKeepsInv(t: Tagged, index: nat, cmd: ListCommand)
    requires Inv(t)
    ensures Inv(Step(t, Command(index, cmd)))
  {
    if !NoOp(|t.ids|, index, cmd) {
      CommandKeepsIds(t, index, cmd);
      CommandKeepsDraft(t.page, index, cmd);
      RemapIsExact(t.page.list, index, cmd, t.page.list[index]);
      hide ApplySpec, FromProfile, DraftOk, Rearranged;
    }
  }

  lemma CommandKeepsIds(t: Tagged, index: nat, cmd: ListCommand)
    requires IdsOk(t) && !NoOp(|t.ids|, index, cmd)
    ensures IdsOk(Step(t, Command(index, cmd)))
  {
    hide FromProfile, Remap, Loaded;
    StepKeepsLengths(t, Command(index, cmd));
    match cmd {
      case Duplicate =>
      case Delete =>
      case _ =>
    }
  }

  lemma CommandKeepsDraft(p: Page, index: nat, cmd: ListCommand)
    requires DraftOk(p) && !NoOp(|p.list|, index, cmd)
    ensures DraftOk(CommandSpec(p, index, cmd))
  {
    RemapIsExact(p.list, index, cmd, p.list[index]);
    hide ApplySpec, FromProfile, Rearranged, Remap;
    var q := p.(list := Rearranged(p.list, index, cmd, p.list[index]), active := Remap(|p.list|, index, cmd, p.active));
    if cmd.Duplicate? {
      LoadedDraft(q, index + 1);
    } else if cmd.Delete? && p.selected == index {
      LoadedDraft(q, Remap(|p.list|, index, cmd, p.selected));
    } else {
      assert Survives(index, cmd, p.selected);
    }
  }

  lemma OthersKeepInv(t: Tagged, e: Event)
    requires Inv(t) && !e.Command?
    ensures Inv(Step(t, e))
  {
    hide Inv, Step;
    match e {
      case Add(name) => AddKeepsInv(t, name);
      case Select(i) => SelectKeepsInv(t, i);
      case Edit(d) => EditKeepsInv(t, d);
      case _ => SetActiveKeepsInv(t);
    }
  }

  lemma AddKeepsInv(t: Tagged, name: string)
    requires Inv(t)
    ensures Inv(Step(t, Add(name)))
  {
    hide FromProfile, ApplySpec, DraftOk;
    LoadedDraft(t.page.(list := t.page.list + [DEFAULT_PROFILE.(name := name)]), |t.page.list|);
  }

  lemma SelectKeepsInv(t: Tagged, i: nat)
    requires Inv(t)
    ensures Inv(Step(t, Select(i)))
  {
    hide FromProfile, ApplySpec, DraftOk;
    LoadedDraft(t.page, i);
  }

  lemma EditKeepsInv(t: Tagged, d: DraftData)
    requires Inv(t)
    ensures Inv(Step(t, Edit(d)))
  {
    hide FromProfile, ApplySpec, Errors;
    ApplyIsIdempotent(d, t.page.list[t.page.selected]);
  }

  lemma SetActiveKeepsInv(t: Tagged)
    requires Inv(t)
    ensures Inv(Step(t, SetActive))
  {
    hide FromProfile, ApplySpec, Missing;
  }

  lemma StartOk(list: seq<Profile>, active: nat)
    requires active < |list|
    ensures Inv(Start(list, active))
  {
    hide ApplySpec, FromProfile, DraftOk;
    LoadedDraft(Page(list, active, 0, DEFAULT_DRAFT, []), active);
  }

  /** After any sequence of operations the list is non-empty, both indices are in bounds, every node has its own
      identity and the list holds everything valid that the editor shows. */
  lemma {:induction false} RunKeepsInv(t: Tagged, es: seq<Event>)
    requires Inv(t)
    ensures Inv(Run(t, es))
  {
    assert |t.ids| == |t.page.list|;
    hide Inv, Step;
    if es == [] {
    } else {
      var before, e := es[..|es| - 1], es[|es| - 1];
      RunKeepsInv(t, before);
      if e.Command? { CommandKeepsInv(Run(t, before), e.index, e.cmd); } else { OthersKeepInv(Run(t, before), e); }
    }
  }

  /** The active index stays in bounds over all runs exactly when it starts in bounds: the loaded index is not
      clamped. */
  lemma ActiveInBoundsIff(list: seq<Profile>, active: nat)
    requires list != []
    ensures (forall es :: Run(Start(list, active), es).page.active < |Run(Start(list, active), es).ids|)
        <==> active < |list|
  {
    if active < |list| {
      forall es ensures Run(Start(list, active), es).page.active < |Run(Start(list, active), es).ids| {
        StartOk(list, active);
        RunKeepsInv(Start(list, active), es);
      }
    } else {
      assert Run(Start(list, active), []).page.active == active;
    }
  }

  // ---------------------------------------------------------------- identity over runs

  /** The node named `id` is the active one, if it still exists. */
  ghost predicate ActiveIs(t: Tagged, id: nat) {
    && id < t.next
    && (id in t.ids ==> t.page.active < |t.ids| && t.ids[t.page.active] == id)
  }

  lemma StepKeepsActive(t: Tagged, e: Event, id: nat)
    requires Inv(t) && ActiveIs(t, id) && !e.SetActive?
    ensures ActiveIs(Step(t, e), id)
  {
    hide FromProfile, ApplySpec, Errors, Missing;
    if e.Command? && !NoOp(|t.ids|, e.index, e.cmd) {
      CommandKeepsActive(t, e.index, e.cmd, id);
    }
  }

  lemma CommandKeepsActive(t: Tagged, index: nat, cmd: ListCommand, id: nat)
    requires Inv(t) && ActiveIs(t, id) && !NoOp(|t.ids|, index, cmd)
    ensures ActiveIs(Step(t, Command(index, cmd)), id)
  {
    hide FromProfile, ApplySpec, DraftOk;
    RemapIsExact(t.ids, index, cmd, t.next);
    var a, u := t.page.active, Rearranged(t.ids, index, cmd, t.next);
    if id in u {
      IdsOnlyLeave(t.ids, index, cmd, t.next, id);
      assert t.ids[a] == id;
      if cmd.Delete? && a == index {
        assert false;
      }
      assert Survives(index, cmd, a);
    }
  }

  lemma IdsOnlyLeave(ids: seq<nat>, index: nat, cmd: ListCommand, next: nat, id: nat)
    requires !NoOp(|ids|, index, cmd) && id != next && id in Rearranged(ids, index, cmd, next)
    ensures id in ids
  {}

  /** Unless the user picks another active node, the active index names the same node for as long as it exists. */
  lemma {:induction false} ActiveNamesTheSameNode(t: Tagged, es: seq<Event>)
    requires Inv(t) && SetActive !in es
    ensures ActiveIs(Run(t, es), t.ids[t.page.active])
  {
    hide Step;
    var id := t.ids[t.page.active];
    if es == [] {
    } else {
      var before, e := es[..|es| - 1], es[|es| - 1];
      assert e in es && SetActive !in before;
      ActiveNamesTheSameNode(t, before);
      RunKeepsInv(t, before);
      StepKeepsActive(Run(t, before), e, id);
    }
  }

  /** The settings of the node named `id`. */
  ghost predicate Holds(t: Tagged, id: nat, p: Profile) {
    && id < t.next && |t.ids| == |t.page.list|
    && forall i | 0 <= i < |t.ids| && t.ids[i] == id :: t.page.list[i] == p
  }

  lemma StepKeepsProfile(t: Tagged, e: Event, id: nat, p: Profile)
    requires Inv(t) && Holds(t, id, p) && !e.Edit?
    ensures Holds(Step(t, e), id, p)
  {
    hide FromProfile, ApplySpec, Errors, Missing;
    StepKeepsLengths(t, e);
    if e.Command? {
      hide Loaded, Inv;
      if !NoOp(|t.ids|, e.index, e.cmd) {
        ListsStayInStep(t, e.index, e.cmd, id, p);
      }
    }
  }

  lemma ListsStayInStep(t: Tagged, index: nat, cmd: ListCommand, id: nat, p: Profile)
    requires Holds(t, id, p) && !NoOp(|t.ids|, index, cmd)
    ensures Holds(Step(t, Command(index, cmd)), id, p)
  {
    hide FromProfile, Remap, Rearranged;
    StepKeepsLengths(t, Command(index, cmd));
    RearrangedTogether(t.ids, t.page.list, index, cmd, t.next, id, p);
  }

  lemma RearrangedTogether(ids: seq<nat>, list: seq<Profile>, index: nat, cmd: ListCommand, next: nat, id: nat,
      p: Profile)
    requires |ids| == |list| && !NoOp(|ids|, index, cmd) && id != next
    requires forall i | 0 <= i < |ids| && ids[i] == id :: list[i] == p
    ensures var (u, v) := (Rearranged(ids, index, cmd, next), Rearranged(list, index, cmd, list[index]));
            |u| == |v| && forall i | 0 <= i < |u| && u[i] == id :: v[i] == p
  {
    var (u, v) := (Rearranged(ids, index, cmd, next), Rearranged(list, index, cmd, list[index]));
    forall i | 0 <= i < |u| && u[i] == id
      ensures |u| == |v| && v[i] == p
    {
      var j := match cmd
        case MoveUp => if i == index then index - 1 else if i == index - 1 then index else i
        case MoveDown => if i == index then index + 1 else if i == index + 1 then index else i
        case Duplicate => if i <= index then i else i - 1
        case Delete => if i < index then i else i + 1;
      assert u[i] == ids[j];
    }
  }

  /** A node's settings change only by editing it: list operations on any nodes keep them. */
  lemma {:induction false} ProfilesFollowTheirNodes(t: Tagged, es: seq<Event>, id: nat, p: Profile)
    requires Inv(t) && Holds(t, id, p) && forall e | e in es :: !e.Edit?
    ensures Holds(Run(t, es), id, p)
  {
    hide Step, Holds;
    if es == [] {
    } else {
      var before, e := es[..|es| - 1], es[|es| - 1];
      assert e in es;
      ProfilesFollowTheirNodes(t, before, id, p);
      RunKeepsInv(t, before);
      StepKeepsProfile(Run(t, before), e, id, p);
    }
  }

  /** An edit reaches the selected node and no other. */
  lemma EditIsLocal(t: Tagged, d: DraftData, id: nat, p: Profile)
    requires Inv(t) && Holds(t, id, p)
    ensures var u := Step(t, Edit(d));
            && u.ids == t.ids && u.page.active == t.page.active && u.page.selected == t.page.selected
            && Holds(u, id, if id == t.ids[t.page.selected] then ApplySpec(d, p) else p)
  {
    hide FromProfile, ApplySpec, Errors;
  }

  /** The editor shows the stored settings of the node named `id`. */
  ghost predicate Shows(t: Tagged, id: nat) {
    && t.page.selected < |t.ids| == |t.page.list| && t.ids[t.page.selected] == id
    && t.page.draft == FromProfile(t.page.list[t.page.selected])
  }

  /** The editor follows the user: to the copy after a duplication, to the neighbour after deleting the node it shows,
      and otherwise it stays with the node it shows, keeping even text that could not be saved. */
  lemma CommandSelects(t: Tagged, index: nat, cmd: ListCommand)
    requires Inv(t) && !NoOp(|t.ids|, index, cmd)
    ensures var u, n := Step(t, Command(index, cmd)), |t.ids|;
            if cmd.Duplicate? then Shows(u, t.next) && u.page.list[u.page.selected] == t.page.list[index]
            else if cmd.Delete? && t.page.selected == index then
                Shows(u, t.ids[if index + 1 < n then index + 1 else index - 1])
            else
              && u.page.selected < |u.ids| && u.ids[u.page.selected] == t.ids[t.page.selected]
              && u.page.draft == t.page.draft
  {
    hide FromProfile, ApplySpec, Errors, DraftOk, Rearranged, Remap;
    StepKeepsLengths(t, Command(index, cmd));
    RemapIsExact(t.ids, index, cmd, t.next);
    RemapIsExact(t.page.list, index, cmd, t.page.list[index]);
    if cmd.Delete? {
      DeletedGoesToNeighbour(t.ids, index, t.next);
    }
  }

  /** A new node and a newly selected one are shown as stored; nothing else moves. */
  lemma AddAndSelectShow(t: Tagged, name: string, i: nat)
    requires Inv(t)
    ensures Shows(Step(t, Add(name)), t.next) && |t.ids| < |Step(t, Add(name)).ids|
    ensures Step(t, Add(name)).ids[..|t.ids|] == t.ids && Step(t, Add(name)).page.list[..|t.ids|] == t.page.list
    ensures i < |t.ids| && i != t.page.selected ==> Shows(Step(t, Select(i)), t.ids[i])
    ensures Step(t, Select(i)).ids == t.ids && Step(t, Select(i)).page.list == t.page.list
    ensures Step(t, Select(i)).page.active == Step(t, Add(name)).page.active == t.page.active
  {
    hide FromProfile, ApplySpec, DraftOk;
  }
}
