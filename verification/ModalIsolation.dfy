/** Isolation of the page behind modal dialogs: a stack of portal roots, a map of remembered
    attributes and a snapshot of the body's scroll styles, brought in line again on every
    registration and unregistration.

    The page and the three variables are a value here, with what every sequence of calls keeps;
    `DialogPage` updates elements in place and is proved against it.
 */
module ModalIsolation {
  import opened Basics

  /** Whether `inert` is present, and the value of `aria-hidden` if it is. */
  datatype Attributes = Attributes(inert: bool, ariaHidden: Option<string>)

  const ISOLATED := Attributes(true, Some("true"))

  datatype BodyStyle = BodyStyle(overflow: string, paddingRight: string)

  /** The page as far as isolation can see it. `children` are the children of the body, `connected`
      the elements inside the document, `exempt` those never isolated (scripts, styles, links and
      nodes that are not HTML elements). */
  datatype State<E(==)> = State(
    attributes: map<E, Attributes>, children: seq<E>, connected: set<E>, exempt: set<E>,
    stack: seq<E>, snapshots: map<E, Attributes>, body: BodyStyle, bodySnapshot: Option<BodyStyle>)

  // ---------- the calls ----------

  function RestoreBackground<E(==)>(s: State<E>): (r: State<E>)
    ensures r.attributes.Keys == s.attributes.Keys
  {
    s.(attributes := map e | e in s.attributes :: if e in s.snapshots && e in s.connected then s.snapshots[e] else s.attributes[e],
       snapshots := map[])
  }

  /** The body's style while locked; `widened` is the padding that makes up for a scrollbar, if there is one. */
  function Locked(style: BodyStyle, widened: Option<string>): BodyStyle {
    BodyStyle("hidden", if widened.Some? then widened.value else style.paddingRight)
  }

  function LockBodyScroll<E(==)>(s: State<E>, widened: Option<string>): (r: State<E>)
    ensures r.attributes.Keys == s.attributes.Keys
  {
    if s.bodySnapshot.Some? then s else s.(body := Locked(s.body, widened), bodySnapshot := Some(s.body))
  }

  function UnlockBodyScroll<E(==)>(s: State<E>): (r: State<E>)
    ensures r.attributes.Keys == s.attributes.Keys
  {
    if s.bodySnapshot.None? then s else s.(body := s.bodySnapshot.value, bodySnapshot := None)
  }

  /** The body children to isolate below a top root. */
  predicate Background<E(==)>(s: State<E>, top: E, e: E) { e in s.children && e != top && e !in s.exempt }

  function Isolate<E(==)>(s: State<E>, top: E): (r: State<E>)
    ensures r.attributes.Keys == s.attributes.Keys
  {
    s.(attributes := map e | e in s.attributes :: if Background(s, top, e) then ISOLATED else s.attributes[e],
       snapshots := s.snapshots + map e | e in s.attributes && Background(s, top, e) && e !in s.snapshots :: s.attributes[e])
  }

  function Top<E>(s: State<E>): E
    requires s.stack != []
  {
    s.stack[|s.stack| - 1]
  }

  function Synchronize<E(==)>(s: State<E>, widened: Option<string>): (r: State<E>)
    ensures r.attributes.Keys == s.attributes.Keys
  {
    var restored := RestoreBackground(s);
    if s.stack == [] then UnlockBodyScroll(restored)
    else Isolate(LockBodyScroll(restored, widened), Top(s))
  }

  function RemoveLast<E(==)>(stack: seq<E>, e: E): seq<E> {
    if stack == [] then []
    else if stack[|stack| - 1] == e then stack[..|stack| - 1]
    else RemoveLast(stack[..|stack| - 1], e) + [stack[|stack| - 1]]
  }

  function Without<E(==)>(children: seq<E>, e: E): seq<E> {
    if children == [] then []
    else if children[0] == e then Without(children[1..], e)
    else [children[0]] + Without(children[1..], e)
  }

  /** What can happen: the page appends an element to the body, moves one deeper into the document or
      takes one out; a dialog registers or unregisters its root. */
  datatype Event<E> =
    | Append(e: E)
    | Nest(e: E)
    | Remove(e: E)
    | Register(e: E, widened: Option<string>)
    | Unregister(e: E, widened: Option<string>)

  function Step<E(==)>(s: State<E>, event: Event<E>): (r: State<E>)
    ensures r.attributes.Keys == s.attributes.Keys
  {
    if event.e !in s.attributes then s
    else match event
      case Append(e) => s.(children := Without(s.children, e) + [e], connected := s.connected + {e})
      case Nest(e) => s.(children := Without(s.children, e), connected := s.connected + {e})
      case Remove(e) => s.(children := Without(s.children, e), connected := s.connected - {e})
      case Register(e, widened) => Synchronize(s.(stack := s.stack + [e]), widened)
      case Unregister(e, widened) => Synchronize(s.(stack := RemoveLast(s.stack, e)), widened)
  }

  function Run<E(==)>(s: State<E>, events: seq<Event<E>>): (r: State<E>)
    ensures r.attributes.Keys == s.attributes.Keys
  {
    if events == [] then s else Step(Run(s, events[..|events| - 1]), events[|events| - 1])
  }

  // ---------- elements whose restoration is skipped ----------

  /** Isolated elements that left the document: the next synchronisation forgets them without restoring them. */
  function Stranded<E(==)>(s: State<E>): set<E> { s.snapshots.Keys - s.connected }

  function LostBy<E(==)>(s: State<E>, event: Event<E>): set<E> {
    if event.e in s.attributes && (event.Register? || event.Unregister?) then Stranded(s) else {}
  }

  /** Every element forgotten while isolated and detached over a run. */
  function Lost<E(==)>(s: State<E>, events: seq<Event<E>>): set<E> {
    if events == [] then {}
    else
      var before := events[..|events| - 1];
      Lost(s, before) + LostBy(Run(s, before), events[|events| - 1])
  }

  // ---------- the invariant of every run ----------

  /** A page with no dialog open and nothing remembered. */
  predicate Fresh<E(==)>(s: State<E>) {
    && s.stack == [] && s.snapshots == map[] && s.bodySnapshot == None
    && (forall e :: e in s.children ==> e in s.connected && e in s.attributes)
    && s.connected <= s.attributes.Keys
  }

  /** The attributes an element has when nothing isolates it. */
  function Base<E(==)>(original: map<E, Attributes>, lost: set<E>, e: E): Attributes
    requires e in original
  {
    if e in lost then ISOLATED else original[e]
  }

  ghost predicate Kept<E>(s: State<E>, s0: State<E>, lost: set<E>) {
    && s.attributes.Keys == s0.attributes.Keys && s.exempt == s0.exempt
    && s.snapshots.Keys <= s.attributes.Keys
    && (forall e :: e in s.children ==> e in s.connected && e in s.attributes)
    && s.connected <= s.attributes.Keys
    && (forall e :: e in s.snapshots ==> s.snapshots[e] == Base(s0.attributes, lost, e) && s.attributes[e] == ISOLATED)
    && (forall e :: e in s.attributes && e !in s.snapshots ==> s.attributes[e] == Base(s0.attributes, lost, e))
    && (s.stack == [] ==> s.snapshots == map[])
    && BodyKept(s, s0.body)
  }

  /** The body's style differs from the original one exactly while a dialog is open. */
  ghost predicate BodyKept<E>(s: State<E>, original: BodyStyle) {
    if s.stack == [] then s.bodySnapshot == None && s.body == original
    else s.bodySnapshot == Some(original) && exists widened :: s.body == Locked(original, widened)
  }

  lemma {:induction false} WithoutMembers<E>(children: seq<E>, e: E, x: E)
    ensures x in Without(children, e) <==> x in children && x != e
  {
    if children != [] {
      WithoutMembers(children[1..], e, x);
    }
  }

  lemma {:induction false} RemoveLastMembers<E>(stack: seq<E>, e: E, x: E)
    ensures x in RemoveLast(stack, e) ==> x in stack
  {
    if stack != [] && stack[|stack| - 1] != e {
      RemoveLastMembers(stack[..|stack| - 1], e, x);
    }
  }

  lemma RestoreKeeps<E>(s: State<E>, s0: State<E>, lost: set<E>)
    requires s.attributes.Keys == s0.attributes.Keys && s.snapshots.Keys <= s.attributes.Keys
    requires forall e :: e in s.snapshots ==> s.snapshots[e] == Base(s0.attributes, lost, e) && s.attributes[e] == ISOLATED
    requires forall e :: e in s.attributes && e !in s.snapshots ==> s.attributes[e] == Base(s0.attributes, lost, e)
    ensures var r := RestoreBackground(s);
            r.attributes.Keys == s0.attributes.Keys
            && forall e :: e in r.attributes ==> r.attributes[e] == Base(s0.attributes, lost + Stranded(s), e)
  {
  }

  /** Where no dialog or only the same dialogs were open before, the lock is taken at most once. */
  lemma SynchronizeKeeps<E>(s: State<E>, s0: State<E>, lost: set<E>, widened: Option<string>)
    requires s.attributes.Keys == s0.attributes.Keys && s.exempt == s0.exempt && s.snapshots.Keys <= s.attributes.Keys
    requires forall e :: e in s.children ==> e in s.connected && e in s.attributes
    requires s.connected <= s.attributes.Keys
    requires forall e :: e in s.snapshots ==> s.snapshots[e] == Base(s0.attributes, lost, e) && s.attributes[e] == ISOLATED
    requires forall e :: e in s.attributes && e !in s.snapshots ==> s.attributes[e] == Base(s0.attributes, lost, e)
    requires || (s.bodySnapshot == None && s.body == s0.body)
             || (s.bodySnapshot == Some(s0.body) && exists w :: s.body == Locked(s0.body, w))
    ensures Kept(Synchronize(s, widened), s0, lost + Stranded(s))
  {
    RestoreKeeps(s, s0, lost);
    var restored := RestoreBackground(s);
    if s.stack == [] {
      UnlockedIsKept(restored, s0, lost + Stranded(s));
    } else {
      IsolatedIsKept(restored, s0, lost + Stranded(s), widened);
    }
  }

  /** Everything restored: nothing is remembered and every element has its base attributes. */
  ghost predicate Restored<E>(s: State<E>, s0: State<E>, lost: set<E>) {
    && s.attributes.Keys == s0.attributes.Keys && s.exempt == s0.exempt && s.snapshots == map[]
    && (forall e :: e in s.children ==> e in s.connected && e in s.attributes)
    && s.connected <= s.attributes.Keys
    && (forall e :: e in s.attributes ==> s.attributes[e] == Base(s0.attributes, lost, e))
    && ((s.bodySnapshot == None && s.body == s0.body)
        || (s.bodySnapshot == Some(s0.body) && exists w :: s.body == Locked(s0.body, w)))
  }

  lemma UnlockedIsKept<E>(s: State<E>, s0: State<E>, lost: set<E>)
    requires Restored(s, s0, lost) && s.stack == []
    ensures Kept(UnlockBodyScroll(s), s0, lost)
  {
  }

  lemma IsolatedIsKept<E>(s: State<E>, s0: State<E>, lost: set<E>, widened: Option<string>)
    requires Restored(s, s0, lost) && s.stack != []
    ensures Kept(Isolate(LockBodyScroll(s, widened), Top(s)), s0, lost)
  {
    var locked := LockBodyScroll(s, widened);
    assert locked.bodySnapshot == Some(s0.body) && exists w :: locked.body == Locked(s0.body, w);
  }

  lemma StepKeeps<E>(s: State<E>, s0: State<E>, lost: set<E>, event: Event<E>)
    requires Kept(s, s0, lost)
    ensures Kept(Step(s, event), s0, lost + LostBy(s, event))
  {
    if event.e in s.attributes {
      match event {
        case Register(e, widened) => SynchronizeKeeps(s.(stack := s.stack + [e]), s0, lost, widened);
        case Unregister(e, widened) => SynchronizeKeeps(s.(stack := RemoveLast(s.stack, e)), s0, lost, widened);
        case _ => forall x { WithoutMembers(s.children, event.e, x); }
      }
    }
    assert LostBy(s, event) == {} ==> lost + LostBy(s, event) == lost;
  }

  lemma {:induction false} RunKeeps<E>(s0: State<E>, events: seq<Event<E>>)
    requires Fresh(s0)
    ensures Kept(Run(s0, events), s0, Lost(s0, events))
  {
    if events != [] {
      var before := events[..|events| - 1];
      RunKeeps(s0, before);
      StepKeeps(Run(s0, before), s0, Lost(s0, before), events[|events| - 1]);
    }
  }

  // ---------- what that means for the page ----------

  predicate Synchronizes<E>(event: Event<E>) { event.Register? || event.Unregister? }

  /** Right after a dialog registers or unregisters and while some dialog is open, every body child
      but the top root and the exempt ones is inert and hidden, and everything else has its own
      attributes back unless they were lost. */
  lemma OnlyTopIsReachable<E>(s0: State<E>, events: seq<Event<E>>, event: Event<E>, e: E)
    requires Fresh(s0) && Synchronizes(event) && event.e in s0.attributes
    requires e in s0.attributes && Run(s0, events + [event]).stack != []
    ensures var s := Run(s0, events + [event]);
            && e in s.attributes
            && (e in s.children && e != s.stack[|s.stack| - 1] && e !in s0.exempt ==>
                  s.attributes[e].inert && s.attributes[e].ariaHidden == Some("true"))
            && (e !in s.children || e == s.stack[|s.stack| - 1] || e in s0.exempt ==>
                  s.attributes[e] == if e in Lost(s0, events + [event]) then Attributes(true, Some("true")) else s0.attributes[e])
  {
    var all := events + [event];
    assert all[..|all| - 1] == events;
    assert Run(s0, all) == Step(Run(s0, events), event);
    RunKeeps(s0, all);
    RememberedIff(Run(s0, events), event, e);
    RememberedShows(Run(s0, all), s0, Lost(s0, all), e);
  }

  lemma RememberedShows<E>(s: State<E>, s0: State<E>, lost: set<E>, e: E)
    requires Kept(s, s0, lost) && e in s0.attributes && s.stack != []
    ensures e in s.attributes && s.exempt == s0.exempt
    ensures e in s.snapshots ==> s.attributes[e].inert && s.attributes[e].ariaHidden == Some("true")
    ensures e !in s.snapshots ==> s.attributes[e] == if e in lost then Attributes(true, Some("true")) else s0.attributes[e]
  {
  }

  /** In between, what the page appends stays reachable until the next dialog registers or unregisters. */
  lemma AppendedIsReachable<E>(s0: State<E>, events: seq<Event<E>>, e: E)
    requires Fresh(s0) && e in s0.attributes && s0.attributes[e] != ISOLATED
    requires e !in Run(s0, events).snapshots && e !in Lost(s0, events) && Run(s0, events).stack != []
    ensures var t := Step(Run(s0, events), Append(e));
            t.stack != [] && e in t.children && t.attributes[e] != ISOLATED
  {
    RunKeeps(s0, events);
    assert Run(s0, events).attributes[e] == s0.attributes[e];
  }

  /** In every reachable state exactly those elements are inert and hidden that are remembered, were lost, or
      were so to begin with; with a dialog open these are the background elements of the last
      synchronisation, whatever was appended since. */
  lemma IsolatedIff<E>(s0: State<E>, events: seq<Event<E>>, e: E)
    requires Fresh(s0) && e in s0.attributes
    ensures var s := Run(s0, events);
            e in s.attributes
            && (s.attributes[e] == ISOLATED <==> e in s.snapshots || e in Lost(s0, events) || s0.attributes[e] == ISOLATED)
  {
    RunKeeps(s0, events);
  }

  /** Right after a synchronisation the remembered elements are exactly the background ones. */
  lemma RememberedIff<E>(s: State<E>, event: Event<E>, e: E)
    requires Synchronizes(event) && event.e in s.attributes && e in s.attributes
    ensures var t := Step(s, event);
            e in t.snapshots <==> t.stack != [] && e in t.children && e != t.stack[|t.stack| - 1] && e !in t.exempt
  {
  }

  /** With no dialog open an element has exactly its original attributes if and only if it was never
      forgotten while isolated and detached, or was isolated to begin with. */
  lemma ClosedPageIsRestored<E>(s0: State<E>, events: seq<Event<E>>, e: E)
    requires Fresh(s0) && e in s0.attributes && Run(s0, events).stack == []
    ensures Run(s0, events).attributes[e] == s0.attributes[e] <==> e !in Lost(s0, events) || s0.attributes[e] == ISOLATED
    ensures Run(s0, events).body == s0.body
  {
    RunKeeps(s0, events);
  }

  /** In every reachable state with a dialog open the page behind it does not scroll. */
  lemma OpenPageIsLocked<E>(s0: State<E>, events: seq<Event<E>>)
    requires Fresh(s0)
    ensures Run(s0, events).stack != [] ==> Run(s0, events).body.overflow == "hidden"
    ensures Run(s0, events).stack == [] ==> Run(s0, events).body == s0.body
  {
    BodyOfRun(s0, events);
  }

  /** The body's style is changed when the first dialog opens, to hidden overflow and the padding that makes
      up for a scrollbar if there is one, restored when the last one closes, and left alone in between. */
  lemma BodyLockedOnce<E>(s0: State<E>, events: seq<Event<E>>, event: Event<E>)
    requires Fresh(s0)
    ensures var s, t := Run(s0, events), Step(Run(s0, events), event);
            && (s.stack != [] && t.stack != [] ==> t.body == s.body)
            && (t.stack == [] ==> t.body == s0.body)
            && (s.stack == [] && t.stack != [] ==>
                  event.Register? && t.body.overflow == "hidden"
                  && t.body.paddingRight == if event.widened.Some? then event.widened.value else s0.body.paddingRight)
  {
    BodyOfRun(s0, events);
    BodyOfRun(s0, events + [event]);
    assert (events + [event])[..|events|] == events;
    BodyOfStep(Run(s0, events), event);
  }

  /** While dialogs stay open the body keeps the style the first of them gave it, whatever scrollbar later
      ones find. */
  lemma StyleOfFirstStays<E>(s0: State<E>, events: seq<Event<E>>, first: Event<E>, more: seq<Event<E>>)
    requires Fresh(s0) && Run(s0, events).stack == []
    requires forall k :: 0 <= k <= |more| ==> Run(Step(Run(s0, events), first), more[..k]).stack != []
    ensures first.Register?
            && Run(Step(Run(s0, events), first), more).body
               == BodyStyle("hidden", if first.widened.Some? then first.widened.value else s0.body.paddingRight)
  {
    var s, t := Run(s0, events), Step(Run(s0, events), first);
    assert Run(t, more[..0]) == t;
    BodyLockedOnce(s0, events, first);
    BodyOfRun(s0, events);
    BodyOfStep(s, first);
    StyleStays(t, more);
  }

  lemma {:induction false} StyleStays<E>(s: State<E>, more: seq<Event<E>>)
    requires s.bodySnapshot.Some? && forall k :: 0 <= k <= |more| ==> Run(s, more[..k]).stack != []
    ensures Run(s, more).body == s.body && Run(s, more).bodySnapshot.Some?
    decreases |more|
  {
    if more != [] {
      var before := more[..|more| - 1];
      forall k | 0 <= k <= |before| ensures Run(s, before[..k]).stack != [] { assert before[..k] == more[..k]; }
      assert Run(s, more[..|more|]).stack != [] && more[..|more|] == more;
      StyleStays(s, before);
      BodyOfStep(Run(s, before), more[|more| - 1]);
    }
  }

  lemma BodyOfRun<E>(s0: State<E>, events: seq<Event<E>>)
    requires Fresh(s0)
    ensures BodyKept(Run(s0, events), s0.body)
  {
    RunKeeps(s0, events);
  }

  lemma BodyOfStep<E>(s: State<E>, event: Event<E>)
    ensures var t := Step(s, event);
            && (s.bodySnapshot.Some? && t.stack != [] ==> t.body == s.body && t.bodySnapshot.Some?)
            && (s.stack == [] && t.stack != [] ==> t.bodySnapshot.Some?)
            && (s.bodySnapshot.None? && s.stack == [] && t.stack != [] ==> event.Register? && t.body == Locked(s.body, event.widened))
  {
  }

  // ---------- exactly which elements are lost ----------

  /** No element is taken out of the document while it is remembered. */
  predicate LeavesRememberedInPlace<E(==)>(s0: State<E>, events: seq<Event<E>>) {
    events == [] ||
    (var before, last := events[..|events| - 1], events[|events| - 1];
     LeavesRememberedInPlace(s0, before) && (last.Remove? ==> last.e !in Run(s0, before).snapshots))
  }

  lemma StepStrandsOnlyByRemoving<E>(s: State<E>, event: Event<E>)
    requires forall e :: e in s.children ==> e in s.connected
    requires Stranded(s) == {} && (event.Remove? ==> event.e !in s.snapshots)
    ensures Stranded(Step(s, event)) == {}
  {
    var t := Step(s, event);
    forall e | e in t.snapshots ensures e in t.connected {
      assert e !in Stranded(s);
    }
  }

  lemma {:induction false} NothingLostInPlace<E>(s0: State<E>, events: seq<Event<E>>)
    requires Fresh(s0) && LeavesRememberedInPlace(s0, events)
    ensures Lost(s0, events) == {} && Stranded(Run(s0, events)) == {}
  {
    if events != [] {
      var before, last := events[..|events| - 1], events[|events| - 1];
      NothingLostInPlace(s0, before);
      RunKeeps(s0, before);
      StepStrandsOnlyByRemoving(Run(s0, before), last);
    }
  }

  /** Removing elements only while they are not remembered, every run restores the whole page. */
  lemma PageRestoredInPlace<E>(s0: State<E>, events: seq<Event<E>>)
    requires Fresh(s0) && LeavesRememberedInPlace(s0, events) && Run(s0, events).stack == []
    ensures Run(s0, events).attributes == s0.attributes
  {
    NothingLostInPlace(s0, events);
    RunKeeps(s0, events);
  }

  /** A dialog that closes, by unregistering its root and taking it out of the document, leaves the
      root stranded if and only if another dialog is still open. */
  lemma ClosingStrandsUnderAnother<E>(s0: State<E>, events: seq<Event<E>>, e: E, widened: Option<string>)
    requires Fresh(s0)
    requires var s := Run(s0, events); e in s.children && e !in s.exempt && e in s.stack && e !in RemoveLast(s.stack, e)
    ensures var t := Step(Step(Run(s0, events), Unregister(e, widened)), Remove(e));
            e in Stranded(t) <==> t.stack != []
  {
    RunKeeps(s0, events);
    var s := Run(s0, events);
    if RemoveLast(s.stack, e) == [] {
      assert Step(s, Unregister(e, widened)).snapshots == map[];
    } else {
      UnregisteredIsRemembered(s, e, widened);
    }
  }

  lemma UnregisteredIsRemembered<E>(s: State<E>, e: E, widened: Option<string>)
    requires e in s.attributes && e in s.children && e !in s.exempt && e !in RemoveLast(s.stack, e) && RemoveLast(s.stack, e) != []
    ensures e in Step(s, Unregister(e, widened)).snapshots
  {
    var u := Step(s, Unregister(e, widened));
    assert Top(u) in RemoveLast(s.stack, e);
    assert Background(u, Top(u), e);
  }

  /** What was lost stays inert and hidden in every later state that does not remember it, so a
      reopened root does too while it is on top. */
  lemma LostStaysIsolated<E>(s0: State<E>, events: seq<Event<E>>, e: E)
    requires Fresh(s0) && e in Lost(s0, events) && e in s0.attributes
    ensures Run(s0, events).attributes[e].inert && Run(s0, events).attributes[e].ariaHidden == Some("true")
  {
    RunKeeps(s0, events);
    assert e in Run(s0, events).attributes;
  }

  /** What opening and closing a dialog does: its effect appends and registers the root, the cleanup
      unregisters it and takes it out. */
  function Open<E(==)>(s: State<E>, e: E, widened: Option<string>): (r: State<E>)
    ensures r.attributes.Keys == s.attributes.Keys
  {
    Step(Step(s, Append(e)), Register(e, widened))
  }

  function Close<E(==)>(s: State<E>, e: E, widened: Option<string>): (r: State<E>)
    ensures r.attributes.Keys == s.attributes.Keys
  {
    Step(Step(s, Unregister(e, widened)), Remove(e))
  }

  lemma OpenPutsOnTop<E>(s: State<E>, e: E, widened: Option<string>)
    requires e in s.attributes
    ensures var t := Open(s, e, widened);
            && t.stack == s.stack + [e] && t.exempt == s.exempt
            && e in t.children && e in t.connected
            && (e !in s.snapshots ==> t.attributes[e] == s.attributes[e])
  {
  }

  lemma CloseUnderAnother<E>(s: State<E>, e: E, rest: seq<E>, widened: Option<string>)
    requires e in s.attributes && e in s.children && e !in s.exempt
    requires RemoveLast(s.stack, e) == rest && rest != [] && rest[|rest| - 1] != e
    ensures var t := Close(s, e, widened);
            t.stack == rest && t.attributes[e] == ISOLATED && e !in t.connected && e !in t.children
  {
    var u := Step(s, Unregister(e, widened));
    assert u.stack == rest && Background(u, Top(u), e);
    WithoutMembers(u.children, e, e);
  }

  lemma CloseLeavesDetached<E>(s: State<E>, e: E, other: E, widened: Option<string>)
    requires other in s.attributes && e in s.attributes && e !in s.connected && e !in s.children
    ensures var t := Close(s, other, widened);
            t.attributes[e] == s.attributes[e] && (RemoveLast(s.stack, other) == [] ==> t.stack == [] && t.snapshots == map[])
  {
  }

  /** Open a, open b, close b, close a, open b again: on every page the second dialog ends on top and
      yet inert and hidden. */
  lemma ReopenedDialogIsInert<E>(s0: State<E>, a: E, b: E, widened: Option<string>)
    requires Fresh(s0) && a != b && a in s0.attributes && b in s0.attributes && b !in s0.exempt
    ensures var both := Open(Open(s0, a, widened), b, widened);
            var closed := Close(Close(both, b, widened), a, widened);
            var again := Open(closed, b, widened);
            again.stack == [b] && again.attributes[b].inert && again.attributes[b].ariaHidden == Some("true")
  {
    var one := Open(s0, a, widened);
    var both := Open(one, b, widened);
    OpenPutsOnTop(s0, a, widened);
    OpenPutsOnTop(one, b, widened);
    assert both.stack == [a, b];
    CloseNested(both, a, b, widened);
    OpenPutsOnTop(Close(Close(both, b, widened), a, widened), b, widened);
  }

  lemma CloseNested<E>(both: State<E>, a: E, b: E, widened: Option<string>)
    requires both.stack == [a, b] && a != b && a in both.attributes && b in both.attributes
    requires b in both.children && b !in both.exempt
    ensures var closed := Close(Close(both, b, widened), a, widened);
            closed.stack == [] && closed.snapshots == map[] && closed.attributes[b] == ISOLATED
  {
    assert RemoveLast([a, b], b) == [a] && RemoveLast([a], a) == [];
    CloseUnderAnother(both, b, [a], widened);
    CloseLeavesDetached(Close(both, b, widened), b, a, widened);
  }
}
