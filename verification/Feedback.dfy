/** The feedback reducer: persistent banners, one active toast and a queue behind it. */
module Feedback {
  import opened Basics

  datatype Presentation = Banner | Toast

  datatype Item = Item(id: string, key: Option<string>, presentation: Presentation, message: string)

  datatype State = State(banners: seq<Item>, activeToast: Option<Item>, toastQueue: seq<Item>)

  datatype Action = Publish(item: Item) | Dismiss(id: string) | ClearKey(key: string)

  const INITIAL := State([], None, [])

  // ---------- the reducer ----------

  /** Whether an action asks for an item to go. */
  predicate Removes(action: Action, item: Item) {
    match action
    case Publish(_) => false
    case Dismiss(id) => item.id == id
    case ClearKey(key) => item.key == Some(key)
  }

  function Without(items: seq<Item>, action: Action): seq<Item> {
    if items == [] then []
    else if Removes(action, items[0]) then Without(items[1..], action)
    else [items[0]] + Without(items[1..], action)
  }

  function Ids(items: seq<Item>): set<string> {
    if items == [] then {} else {items[0].id} + Ids(items[1..])
  }

  predicate Keyed(item: Item) { item.key.Some? && item.key.value != "" }

  /** Index of the first banner with the key, or the number of banners. */
  function FindKey(banners: seq<Item>, key: Option<string>): (k: nat)
    ensures k <= |banners|
    ensures k < |banners| ==> banners[k].key == key
    ensures forall i :: 0 <= i < k ==> banners[i].key != key
  {
    if banners == [] || banners[0].key == key then 0 else 1 + FindKey(banners[1..], key)
  }

  function PublishBanner(state: State, item: Item): State {
    if !Keyed(item) then state.(banners := state.banners + [item])
    else
      var existing := FindKey(state.banners, item.key);
      if existing == |state.banners| then state.(banners := state.banners + [item])
      else state.(banners := state.banners[existing := item])
  }

  function AdvanceToast(state: State): State {
    if state.toastQueue == [] then state.(activeToast := None, toastQueue := [])
    else state.(activeToast := Some(state.toastQueue[0]), toastQueue := state.toastQueue[1..])
  }

  function DismissToast(state: State, id: string): State {
    if state.activeToast.Some? && state.activeToast.value.id == id then AdvanceToast(state)
    else state.(toastQueue := Without(state.toastQueue, Dismiss(id)))
  }

  function Reduce(state: State, action: Action): State {
    match action
    case Publish(item) =>
      if item.presentation == Banner then PublishBanner(state, item)
      else if state.activeToast.None? then state.(activeToast := Some(item))
      else state.(toastQueue := state.toastQueue + [item])
    case Dismiss(id) =>
      if id in Ids(state.banners) then state.(banners := Without(state.banners, action)) else DismissToast(state, id)
    case ClearKey(key) =>
      var banners, queued := Without(state.banners, action), Without(state.toastQueue, action);
      if state.activeToast.None? || state.activeToast.value.key != Some(key) then
        state.(banners := banners, toastQueue := queued)
      else if queued == [] then State(banners, None, [])
      else State(banners, Some(queued[0]), queued[1..])
  }

  function Run(actions: seq<Action>): State {
    if actions == [] then INITIAL else Reduce(Run(actions[..|actions| - 1]), actions[|actions| - 1])
  }

  // ---------- one list of toasts ----------

  /** The toasts as one list: the active one, then the queue. */
  function Toasts(state: State): seq<Item> {
    if state.activeToast.Some? then [state.activeToast.value] + state.toastQueue else state.toastQueue
  }

  predicate QueueBehindActive(state: State) { state.activeToast.None? ==> state.toastQueue == [] }

  lemma ReduceKeepsQueueBehind(state: State, action: Action)
    requires QueueBehindActive(state)
    ensures QueueBehindActive(Reduce(state, action))
  {
  }

  /** Whatever happens, no toast waits behind an empty place. */
  lemma {:induction false} QueueAlwaysBehindActive(actions: seq<Action>)
    ensures QueueBehindActive(Run(actions))
  {
    if actions != [] {
      QueueAlwaysBehindActive(actions[..|actions| - 1]);
      ReduceKeepsQueueBehind(Run(actions[..|actions| - 1]), actions[|actions| - 1]);
    }
  }

  lemma {:induction false} WithoutId(items: seq<Item>, id: string)
    ensures Without(items, Dismiss(id)) == items <==> id !in Ids(items)
    ensures |Without(items, Dismiss(id))| <= |items|
  {
    if items != [] {
      WithoutId(items[1..], id);
    }
  }

  lemma WithoutOfCons(first: Item, rest: seq<Item>, action: Action)
    ensures Without([first] + rest, action) == if Removes(action, first) then Without(rest, action) else [first] + Without(rest, action)
  {
    assert ([first] + rest)[1..] == rest;
  }

  /** Publishing a toast appends to the list and clearing a key filters it. Dismissing filters it too,
      except in one situation: the active toast has the id and so does a queued one. */
  lemma ToastsAreOneList(state: State, action: Action)
    requires QueueBehindActive(state)
    ensures action.Publish? ==>
      Toasts(Reduce(state, action)) == if action.item.presentation == Toast then Toasts(state) + [action.item] else Toasts(state)
    ensures action.ClearKey? ==> Toasts(Reduce(state, action)) == Without(Toasts(state), action)
    ensures action.Dismiss? && action.id in Ids(state.banners) ==> Toasts(Reduce(state, action)) == Toasts(state)
    ensures action.Dismiss? && action.id !in Ids(state.banners) ==>
      (Toasts(Reduce(state, action)) == Without(Toasts(state), action)
       <==> !(state.activeToast.Some? && state.activeToast.value.id == action.id && action.id in Ids(state.toastQueue)))
  {
    if state.activeToast.Some? {
      WithoutOfCons(state.activeToast.value, state.toastQueue, action);
      if action.Dismiss? {
        WithoutId(state.toastQueue, action.id);
        DismissedActive(state, action.id);
      }
    }
  }

  lemma DismissedActive(state: State, id: string)
    ensures state.activeToast.Some? && state.activeToast.value.id == id ==> Toasts(DismissToast(state, id)) == state.toastQueue
  {
  }

  // ---------- runs with fresh ids ----------

  function PublishedIds(actions: seq<Action>): set<string> {
    if actions == [] then {}
    else
      var last := actions[|actions| - 1];
      if last.Publish? then PublishedIds(actions[..|actions| - 1]) + {last.item.id} else PublishedIds(actions[..|actions| - 1])
  }

  /** Every published item has an id of its own, as the feedback centre's counter gives it. */
  predicate FreshIds(actions: seq<Action>) {
    actions == [] ||
    (var before, last := actions[..|actions| - 1], actions[|actions| - 1];
     FreshIds(before) && (last.Publish? ==> last.item.id !in PublishedIds(before)))
  }

  predicate DistinctIds(items: seq<Item>) {
    items == [] || (items[0].id !in Ids(items[1..]) && DistinctIds(items[1..]))
  }

  lemma {:induction false} IdsOfConcat(a: seq<Item>, b: seq<Item>)
    ensures Ids(a + b) == Ids(a) + Ids(b)
  {
    if a == [] {
      assert a + b == b;
    } else {
      assert (a + b)[1..] == a[1..] + b;
      IdsOfConcat(a[1..], b);
    }
  }

  lemma {:induction false} DistinctSnoc(items: seq<Item>, last: Item)
    requires DistinctIds(items) && last.id !in Ids(items)
    ensures DistinctIds(items + [last])
  {
    if items == [] {
      assert items + [last] == [last] && [last][1..] == [];
    } else {
      assert (items + [last])[1..] == items[1..] + [last];
      DistinctSnoc(items[1..], last);
      IdsOfConcat(items[1..], [last]);
      assert [last][1..] == [];
    }
  }

  lemma {:induction false} WithoutIds(items: seq<Item>, action: Action)
    ensures Ids(Without(items, action)) <= Ids(items)
    ensures DistinctIds(items) ==> DistinctIds(Without(items, action))
  {
    if items != [] {
      WithoutIds(items[1..], action);
      var rest := Without(items[1..], action);
      assert ([items[0]] + rest)[1..] == rest;
    }
  }

  lemma {:induction false} IdsOfUpdate(items: seq<Item>, k: nat, item: Item)
    requires k < |items|
    ensures Ids(items[k := item]) <= Ids(items) + {item.id}
  {
    var updated := items[k := item];
    if k == 0 {
      assert updated[1..] == items[1..];
    } else {
      assert updated[1..] == items[1..][k - 1 := item];
      IdsOfUpdate(items[1..], k - 1, item);
    }
  }

  lemma IdsOfSnoc(items: seq<Item>, last: Item)
    ensures Ids(items + [last]) == Ids(items) + {last.id}
  {
    IdsOfConcat(items, [last]);
    assert [last][1..] == [];
  }

  /** No toast shares an id with another one or with a banner. */
  predicate SeparateIds(state: State) { DistinctIds(Toasts(state)) && Ids(state.banners) !! Ids(Toasts(state)) }

  lemma BannerIds(state: State, action: Action)
    ensures Ids(Reduce(state, action).banners)
            <= Ids(state.banners) + if action.Publish? && action.item.presentation == Banner then {action.item.id} else {}
  {
    match action {
      case Publish(item) => {
        IdsOfSnoc(state.banners, item);
        var existing := FindKey(state.banners, item.key);
        if existing < |state.banners| {
          IdsOfUpdate(state.banners, existing, item);
        }
      }
      case _ => WithoutIds(state.banners, action);
    }
  }

  /** With separate ids, removal filters the list of toasts whatever its kind. */
  lemma RemovalFilters(state: State, action: Action)
    requires QueueBehindActive(state) && SeparateIds(state) && !action.Publish?
    ensures Toasts(Reduce(state, action)) == Without(Toasts(state), action)
  {
    ToastsAreOneList(state, action);
    if action.Dismiss? {
      if action.id in Ids(state.banners) {
        WithoutId(Toasts(state), action.id);
      } else if state.activeToast.Some? {
        assert Toasts(state)[1..] == state.toastQueue;
      }
    }
  }

  lemma {:induction false} FreshRunSeparatesIds(actions: seq<Action>)
    requires FreshIds(actions)
    ensures SeparateIds(Run(actions))
    ensures Ids(Run(actions).banners) + Ids(Toasts(Run(actions))) <= PublishedIds(actions)
  {
    if actions != [] {
      var before, last := actions[..|actions| - 1], actions[|actions| - 1];
      var state := Run(before);
      FreshRunSeparatesIds(before);
      QueueAlwaysBehindActive(before);
      BannerIds(state, last);
      if last.Publish? {
        ToastsAreOneList(state, last);
        if last.item.presentation == Toast {
          IdsOfSnoc(Toasts(state), last.item);
          DistinctSnoc(Toasts(state), last.item);
        }
      } else {
        RemovalFilters(state, last);
        WithoutIds(Toasts(state), last);
      }
    }
  }

  // ---------- publication order ----------

  /** The toasts published over a run, in order. */
  function Published(actions: seq<Action>): seq<Item> {
    if actions == [] then []
    else
      var before, last := Published(actions[..|actions| - 1]), actions[|actions| - 1];
      if last.Publish? && last.item.presentation == Toast then before + [last.item] else before
  }

  function Removed(items: seq<Item>, action: Action): set<Item> { set item | item in items && Removes(action, item) }

  /** The published toasts that some later action removed. */
  function Gone(actions: seq<Action>): set<Item> {
    if actions == [] then {}
    else Gone(actions[..|actions| - 1]) + Removed(Published(actions[..|actions| - 1]), actions[|actions| - 1])
  }

  function Alive(items: seq<Item>, gone: set<Item>): seq<Item> {
    if items == [] then []
    else if items[0] in gone then Alive(items[1..], gone)
    else [items[0]] + Alive(items[1..], gone)
  }

  lemma {:induction false} AliveSnoc(items: seq<Item>, last: Item, gone: set<Item>)
    ensures Alive(items + [last], gone) == if last in gone then Alive(items, gone) else Alive(items, gone) + [last]
  {
    if items == [] {
      assert items + [last] == [last] && [last][1..] == [];
    } else {
      assert (items + [last])[1..] == items[1..] + [last];
      AliveSnoc(items[1..], last, gone);
    }
  }

  lemma {:induction false} AliveFilters(items: seq<Item>, gone: set<Item>, removed: set<Item>, action: Action)
    requires forall item :: item in items ==> (item in removed <==> Removes(action, item))
    ensures Alive(items, gone + removed) == Without(Alive(items, gone), action)
  {
    if items != [] {
      AliveFilters(items[1..], gone, removed, action);
      assert items[0] in items;
      WithoutOfCons(items[0], Alive(items[1..], gone), action);
    }
  }

  lemma {:induction false} GoneWasPublished(actions: seq<Action>, item: Item)
    ensures item in Gone(actions) ==> item in Published(actions)
    ensures item in Published(actions) ==> item.id in PublishedIds(actions)
  {
    if actions != [] {
      GoneWasPublished(actions[..|actions| - 1], item);
    }
  }

  /** The toasts on display are the published ones that nothing removed, in publication order. */
  lemma {:induction false} ToastsInPublicationOrder(actions: seq<Action>)
    requires FreshIds(actions)
    ensures Toasts(Run(actions)) == Alive(Published(actions), Gone(actions))
  {
    if actions != [] {
      var before, last := actions[..|actions| - 1], actions[|actions| - 1];
      var items, gone := Published(before), Gone(before);
      ToastsInPublicationOrder(before);
      QueueAlwaysBehindActive(before);
      FreshRunSeparatesIds(before);
      if last.Publish? {
        assert Removed(items, last) == {} && Gone(actions) == gone;
        ToastsAreOneList(Run(before), last);
        AliveSnoc(items, last.item, gone);
        GoneWasPublished(before, last.item);
      } else {
        RemovalFilters(Run(before), last);
        AliveFilters(items, gone, Removed(items, last), last);
      }
    }
  }

  /** Index of the first item that is not gone. */
  function FirstAlive(items: seq<Item>, gone: set<Item>): (k: nat)
    ensures k <= |items|
  {
    if items == [] || items[0] !in gone then 0 else 1 + FirstAlive(items[1..], gone)
  }

  lemma {:induction false} FirstAliveIsHead(items: seq<Item>, gone: set<Item>)
    ensures Alive(items, gone) != [] ==> FirstAlive(items, gone) < |items| && Alive(items, gone)[0] == items[FirstAlive(items, gone)]
  {
    if items != [] {
      FirstAliveIsHead(items[1..], gone);
    }
  }

  lemma {:induction false} FirstAliveAdvances(items: seq<Item>, more: seq<Item>, gone: set<Item>, gone': set<Item>)
    requires items <= more && gone <= gone'
    ensures FirstAlive(items, gone) <= FirstAlive(more, gone')
  {
    if items != [] {
      FirstAliveAdvances(items[1..], more[1..], gone, gone');
    }
  }

  lemma {:induction false} RunsGrow(actions: seq<Action>, later: seq<Action>)
    requires actions <= later
    ensures Published(actions) <= Published(later) && Gone(actions) <= Gone(later)
    ensures FreshIds(later) ==> FreshIds(actions)
  {
    if |actions| < |later| {
      RunsGrow(actions, later[..|later| - 1]);
    } else {
      assert actions == later;
    }
  }

  /** Toasts become active in publication order: a toast active later was published no earlier. */
  lemma ActivationFollowsPublication(actions: seq<Action>, later: seq<Action>)
    requires actions <= later && FreshIds(later)
    requires Run(actions).activeToast.Some? && Run(later).activeToast.Some?
    ensures exists i, j :: (0 <= i <= j < |Published(later)| && Published(later)[i] == Run(actions).activeToast.value
                            && Published(later)[j] == Run(later).activeToast.value)
  {
    RunsGrow(actions, later);
    ToastsInPublicationOrder(actions);
    ToastsInPublicationOrder(later);
    FirstAliveIsHead(Published(actions), Gone(actions));
    FirstAliveIsHead(Published(later), Gone(later));
    FirstAliveAdvances(Published(actions), Published(later), Gone(actions), Gone(later));
    var i, j := FirstAlive(Published(actions), Gone(actions)), FirstAlive(Published(later), Gone(later));
    assert Published(later)[i] == Published(actions)[i];
  }

  // ---------- banners ----------

  /** Each non-empty key stands on at most one banner. */
  ghost predicate KeysOnce(banners: seq<Item>) {
    forall i, j :: 0 <= i < j < |banners| && Keyed(banners[i]) ==> banners[i].key != banners[j].key
  }

  lemma {:induction false} WithoutKeepsKeysOnce(banners: seq<Item>, action: Action)
    requires KeysOnce(banners)
    ensures KeysOnce(Without(banners, action))
    ensures forall item :: item in Without(banners, action) ==> item in banners
  {
    if banners != [] {
      var rest := banners[1..];
      assert KeysOnce(rest);
      WithoutKeepsKeysOnce(rest, action);
      forall item | item in rest && Keyed(banners[0]) ensures item.key != banners[0].key {
        var j :| 0 <= j < |rest| && rest[j] == item;
        assert banners[j + 1] == item;
      }
    }
  }

  /** Publishing a keyed banner replaces the banner of that key where it stands, if there is one. */
  lemma BannerReplacedInPlace(state: State, item: Item, k: nat)
    requires item.presentation == Banner && Keyed(item) && KeysOnce(state.banners)
    requires k < |state.banners| && state.banners[k].key == item.key
    ensures Reduce(state, Publish(item)) == state.(banners := state.banners[k := item])
  {
    assert Keyed(state.banners[k]);
  }

  lemma {:induction false} KeysAlwaysOnce(actions: seq<Action>)
    ensures KeysOnce(Run(actions).banners)
  {
    if actions != [] {
      var before, last := actions[..|actions| - 1], actions[|actions| - 1];
      KeysAlwaysOnce(before);
      if last.Publish? {
        PublishKeepsKeysOnce(Run(before), last.item);
      } else {
        WithoutKeepsKeysOnce(Run(before).banners, last);
      }
    }
  }

  lemma PublishKeepsKeysOnce(state: State, item: Item)
    requires KeysOnce(state.banners)
    ensures KeysOnce(Reduce(state, Publish(item)).banners)
  {
  }

  // ---------- what removal removes ----------

  lemma {:induction false} WithoutOfConcat(a: seq<Item>, b: seq<Item>, action: Action)
    ensures Without(a + b, action) == Without(a, action) + Without(b, action)
  {
    if a == [] {
      assert a + b == b;
    } else {
      assert (a + b)[1..] == a[1..] + b;
      WithoutOfConcat(a[1..], b, action);
    }
  }

  /** Dismissing takes out the items with the id and clearing those with the key, and both keep the rest in order. */
  lemma {:induction false} RemovalTakesOut(items: seq<Item>, id: string, key: string)
    ensures forall x :: x in Without(items, Dismiss(id)) <==> x in items && x.id != id
    ensures forall x :: x in Without(items, ClearKey(key)) <==> x in items && x.key != Some(key)
  {
    if items != [] {
      RemovalTakesOut(items[1..], id, key);
      assert items == [items[0]] + items[1..];
    }
  }

  lemma {:induction false} NothingWithId(items: seq<Item>, id: string)
    requires id !in Ids(items)
    ensures Without(items, Dismiss(id)) == items
  {
    if items != [] { NothingWithId(items[1..], id); }
  }

  /** The banners under any action: a toast leaves them alone, a banner is appended unless its non-empty key is
      there already, and removal filters them. */
  lemma BannersFollow(state: State, action: Action)
    ensures var banners := Reduce(state, action).banners;
            && (action.Publish? && action.item.presentation == Toast ==> banners == state.banners)
            && (action.Publish? && action.item.presentation == Banner
                && (action.item.key == None || action.item.key == Some("") || forall k :: 0 <= k < |state.banners| ==> state.banners[k].key != action.item.key) ==>
                  banners == state.banners + [action.item])
            && (!action.Publish? ==> banners == Without(state.banners, action))
  {
    if action.Dismiss? && action.id !in Ids(state.banners) { NothingWithId(state.banners, action.id); }
  }
}
