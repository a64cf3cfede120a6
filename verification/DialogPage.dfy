/** The isolation variables and the page's elements updated in place, proved against `ModalIsolation`. */
module DialogPage {
  import opened Basics
  import opened ModalIsolation

  class Element {
    const exempt: bool
    var inert: bool
    var ariaHidden: Option<string>
    var isConnected: bool

    function Attrs(): Attributes
      reads this
    {
      Attributes(inert, ariaHidden)
    }

    constructor (exempt: bool)
      ensures this.exempt == exempt && Attrs() == Attributes(false, None) && !isConnected
    {
      this.exempt := exempt;
      inert, ariaHidden, isConnected := false, None, false;
    }
  }

  method RestoreElement(element: Element, snapshot: Attributes)
    modifies element`inert, element`ariaHidden
    ensures element.Attrs() == snapshot && element.inert == snapshot.inert && element.ariaHidden == snapshot.ariaHidden
  {
    if snapshot.inert { element.inert := true; } else { element.inert := false; }
    if snapshot.ariaHidden == None { element.ariaHidden := None; } else { element.ariaHidden := snapshot.ariaHidden; }
  }

  method LastIndexOf(stack: seq<Element>, root: Element) returns (index: int)
    ensures -1 <= index < |stack|
    ensures index >= 0 ==> stack[index] == root
    ensures forall k :: index < k < |stack| ==> stack[k] != root
    ensures RemoveLast(stack, root) == if index < 0 then stack else stack[..index] + stack[index + 1..]
  {
    index := |stack| - 1;
    assert stack[..index + 1] == stack && stack[index + 1..] == [];
    while index >= 0 && stack[index] != root
      invariant -1 <= index < |stack|
      invariant forall k :: index < k < |stack| ==> stack[k] != root
      invariant RemoveLast(stack, root) == RemoveLast(stack[..index + 1], root) + stack[index + 1..]
    {
      assert stack[..index + 1][..index] == stack[..index];
      assert stack[index..] == [stack[index]] + stack[index + 1..];
      index := index - 1;
    }
    if index >= 0 {
      assert stack[..index + 1][..index] == stack[..index];
    }
  }

  lemma StepSynchronizes(s: State<Element>, root: Element, widened: Option<string>)
    requires root in s.attributes
    ensures Step(s, Register(root, widened)) == Synchronize(s.(stack := s.stack + [root]), widened)
    ensures Step(s, Unregister(root, widened)) == Synchronize(s.(stack := RemoveLast(s.stack, root)), widened)
  {
  }

  class Page {
    ghost const elements: set<Element>
    var children: seq<Element>
    var overflow: string
    var paddingRight: string
    var dialogStack: seq<Element>
    var elementSnapshots: map<Element, Attributes>
    var bodySnapshot: Option<BodyStyle>

    ghost function Value(): State<Element>
      reads this, elements
    {
      State(map e | e in elements :: e.Attrs(), children, (set e | e in elements && e.isConnected),
            (set e | e in elements && e.exempt), dialogStack, elementSnapshots, BodyStyle(overflow, paddingRight), bodySnapshot)
    }

    ghost predicate Valid()
      reads this
    {
      && (forall e :: e in children ==> e in elements)
      && (forall e :: e in dialogStack ==> e in elements)
      && elementSnapshots.Keys <= elements
      && (bodySnapshot.Some? ==> overflow == "hidden")
      && forall i, j :: 0 <= i < j < |children| ==> children[i] != children[j]
    }

    /** What the user meets: with a dialog open the page does not scroll and everything behind the top dialog
        is inert and hidden; with none open no body style is withheld. */
    ghost predicate Shown()
      reads this, elements
      requires Valid()
    {
      if dialogStack == [] then bodySnapshot.None?
      else
        && bodySnapshot.Some? && overflow == "hidden"
        && forall e :: e in children && e != dialogStack[|dialogStack| - 1] && !e.exempt ==> e.inert && e.ariaHidden == Some("true")
    }

    constructor (ghost elements: set<Element>, overflow: string, paddingRight: string)
      ensures Valid() && this.elements == elements && children == [] && dialogStack == []
      ensures Value().stack == [] && Value().snapshots == map[] && Value().bodySnapshot == None
      ensures this.overflow == overflow && this.paddingRight == paddingRight
    {
      this.elements := elements;
      children, dialogStack, elementSnapshots, bodySnapshot := [], [], map[], None;
      this.overflow, this.paddingRight := overflow, paddingRight;
    }

    method RestoreBackground()
      requires Valid()
      modifies this`elementSnapshots, elements
      ensures Valid() && Value() == ModalIsolation.RestoreBackground(old(Value()))
    {
      var remaining := elementSnapshots.Keys;
      while remaining != {}
        invariant elementSnapshots == old(elementSnapshots) && remaining <= elementSnapshots.Keys
        invariant forall e :: e in elements ==> e.isConnected == old(e.isConnected)
        invariant forall e :: e in elements ==>
          e.Attrs() == if e in elementSnapshots && e !in remaining && e.isConnected then elementSnapshots[e] else old(e.Attrs())
      {
        var element :| element in remaining;
        if element.isConnected {
          RestoreElement(element, elementSnapshots[element]);
        }
        remaining := remaining - {element};
      }
      elementSnapshots := map[];
      assert Value().attributes == ModalIsolation.RestoreBackground(old(Value())).attributes;
      assert Value().connected == old(Value()).connected;
    }

    method LockBodyScroll(widened: Option<string>)
      requires Valid()
      modifies this`overflow, this`paddingRight, this`bodySnapshot
      ensures Valid() && Value() == ModalIsolation.LockBodyScroll(old(Value()), widened)
      ensures bodySnapshot.Some? && overflow == "hidden"
      ensures old(bodySnapshot).Some? ==> bodySnapshot == old(bodySnapshot) && paddingRight == old(paddingRight)
      ensures old(bodySnapshot).None? ==>
                bodySnapshot.value == BodyStyle(old(overflow), old(paddingRight))
                && paddingRight == if widened.Some? then widened.value else old(paddingRight)
    {
      if bodySnapshot.Some? { return; }
      bodySnapshot := Some(BodyStyle(overflow, paddingRight));
      overflow := "hidden";
      if widened.Some? { paddingRight := widened.value; }
    }

    method UnlockBodyScroll()
      requires Valid()
      modifies this`overflow, this`paddingRight, this`bodySnapshot
      ensures Valid() && Value() == ModalIsolation.UnlockBodyScroll(old(Value()))
      ensures bodySnapshot.None?
      ensures BodyStyle(overflow, paddingRight) == old(if bodySnapshot.Some? then bodySnapshot.value else BodyStyle(overflow, paddingRight))
    {
      if bodySnapshot.None? { return; }
      overflow := bodySnapshot.value.overflow;
      paddingRight := bodySnapshot.value.paddingRight;
      bodySnapshot := None;
    }

    method RememberElement(element: Element)
      modifies this`elementSnapshots
      ensures elementSnapshots
              == if element in old(elementSnapshots) then old(elementSnapshots) else old(elementSnapshots)[element := element.Attrs()]
    {
      if element in elementSnapshots { return; }
      elementSnapshots := elementSnapshots[element := Attributes(element.inert, element.ariaHidden)];
    }

    method IsolateElement(child: Element)
      modifies this`elementSnapshots, child`inert, child`ariaHidden
      ensures child.Attrs() == ISOLATED && child.inert && child.ariaHidden == Some("true")
      ensures elementSnapshots
              == if child in old(elementSnapshots) then old(elementSnapshots) else old(elementSnapshots)[child := old(child.Attrs())]
    {
      RememberElement(child);
      child.inert := true;
      child.ariaHidden := Some("true");
    }

    method IsolateBackground(topDialog: Element)
      requires Valid()
      modifies this`elementSnapshots, elements
      ensures Valid() && Value() == ModalIsolation.Isolate(old(Value()), topDialog)
    {
      ghost var done: set<Element> := {};
      for i := 0 to |children|
        invariant done <= elements && elementSnapshots.Keys == old(elementSnapshots).Keys + done
        invariant forall e :: e in done <==> e in children[..i] && e != topDialog && !e.exempt
        invariant forall e :: e in elements ==> e.isConnected == old(e.isConnected)
        invariant forall e :: e in elements ==> e.Attrs() == if e in done then ISOLATED else old(e.Attrs())
        invariant forall e :: e in elementSnapshots ==>
          elementSnapshots[e] == if e in old(elementSnapshots) then old(elementSnapshots)[e] else old(e.Attrs())
      {
        var child := children[i];
        assert children[..i + 1] == children[..i] + [child];
        if child == topDialog || child.exempt { continue; }
        IsolateElement(child);
        done := done + {child};
      }
      assert children[..|children|] == children;
      IsolatedValue(old(Value()), Value(), topDialog);
    }

    lemma IsolatedValue(was: State<Element>, now: State<Element>, top: Element)
      requires now == was.(attributes := now.attributes, snapshots := now.snapshots)
      requires now.attributes.Keys == was.attributes.Keys
      requires forall e :: e in was.attributes ==>
        now.attributes[e] == if Background(was, top, e) then ISOLATED else was.attributes[e]
      requires forall e :: e in now.snapshots <==> e in was.snapshots || (e in was.attributes && Background(was, top, e))
      requires forall e :: e in now.snapshots ==>
        now.snapshots[e] == if e in was.snapshots then was.snapshots[e] else was.attributes[e]
      ensures now == Isolate(was, top)
    {
      var expected := Isolate(was, top);
      assert now.attributes == expected.attributes;
      assert now.snapshots == expected.snapshots;
    }

    lemma IsolatedIsShown(top: Element)
      requires Valid() && forall e :: e in Value().attributes && Background(Value(), top, e) ==> Value().attributes[e] == ISOLATED
      ensures forall e :: e in children && e != top && !e.exempt ==> e.inert && e.ariaHidden == Some("true")
    {
      forall e | e in children && e != top && !e.exempt ensures e.inert && e.ariaHidden == Some("true") {
        assert Background(Value(), top, e) && Value().attributes[e] == e.Attrs();
      }
    }

    method SynchronizeModalIsolation(widened: Option<string>)
      requires Valid()
      modifies this`elementSnapshots, this`overflow, this`paddingRight, this`bodySnapshot, elements
      ensures Valid() && Value() == ModalIsolation.Synchronize(old(Value()), widened)
      ensures Shown()
    {
      RestoreBackground();
      if dialogStack == [] {
        UnlockBodyScroll();
        return;
      }
      var topDialog := dialogStack[|dialogStack| - 1];
      LockBodyScroll(widened);
      IsolateBackground(topDialog);
      IsolatedIsShown(topDialog);
    }

    method PushOnStack(portalRoot: Element)
      requires Valid() && portalRoot in elements
      modifies this`dialogStack
      ensures Valid() && Value() == old(Value()).(stack := old(dialogStack) + [portalRoot])
    {
      dialogStack := dialogStack + [portalRoot];
      assert Value().attributes == old(Value()).attributes;
    }

    method RegisterDialog(portalRoot: Element, widened: Option<string>)
      requires Valid() && portalRoot in elements
      modifies this`dialogStack, this`elementSnapshots, this`overflow, this`paddingRight, this`bodySnapshot, elements
      ensures Valid() && Value() == Step(old(Value()), Register(portalRoot, widened))
      ensures dialogStack == old(dialogStack) + [portalRoot] && Shown()
    {
      StepSynchronizes(Value(), portalRoot, widened);
      PushOnStack(portalRoot);
      SynchronizeModalIsolation(widened);
    }

    method RemoveFromStack(portalRoot: Element)
      requires Valid()
      modifies this`dialogStack
      ensures Valid() && Value() == old(Value()).(stack := RemoveLast(old(dialogStack), portalRoot))
    {
      var index := LastIndexOf(dialogStack, portalRoot);
      if index >= 0 { dialogStack := dialogStack[..index] + dialogStack[index + 1..]; }
      assert dialogStack == RemoveLast(old(dialogStack), portalRoot);
      assert Value().attributes == old(Value()).attributes;
    }

    /** Removes the last entry of a root from the stack, wherever it is, if it is there. */
    method UnregisterDialog(portalRoot: Element, widened: Option<string>)
      requires Valid() && portalRoot in elements
      modifies this`dialogStack, this`elementSnapshots, this`overflow, this`paddingRight, this`bodySnapshot, elements
      ensures Valid() && Value() == Step(old(Value()), Unregister(portalRoot, widened))
      ensures Shown()
    {
      StepSynchronizes(Value(), portalRoot, widened);
      RemoveFromStack(portalRoot);
      SynchronizeModalIsolation(widened);
    }
  }
}
