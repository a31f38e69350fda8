/**
 * The page side of Maux: the page model's prepare flags (`MauxPageModel`),
 * the content page's intent, lifecycle and sleep/resume gating
 * (`MauxContentPage`), the Shell page's query handling (`MauxShellPage`) and
 * the stack navigation facade (`AppNavigation`).
 *
 * One module, because a content page publishes its navigation through the
 * facade and the facade assigns intents to content pages.
 */
module Mvvm {
  import opened Wrappers

  // ---------------------------------------------------------------------
  // Page model
  // ---------------------------------------------------------------------

  /** One run of `PrepareAsync`: the intent it received and what `IsPreparing` read while it ran. */
  datatype PrepareCall = PrepareCall(intent: Value, isPreparing: bool)

  class MauxPageModel {
    var isPreparing: bool
    var isInitializing: bool
    /** Every run of `PrepareAsync`, in order. */
    var prepareCalls: seq<PrepareCall>
    /**
     * How this page model's `PrepareAsync` ends: `Pass` for the base
     * implementation, `Fail` for an override that throws.
     */
    const prepareOutcome: Outcome

    /** A new page model is both preparing and initializing. */
    constructor(prepareOutcome: Outcome)
      ensures isPreparing && isInitializing
      ensures prepareCalls == [] && this.prepareOutcome == prepareOutcome
    {
      isPreparing := true;
      isInitializing := true;
      prepareCalls := [];
      this.prepareOutcome := prepareOutcome;
    }

    /** The overridable prepare step; it changes no state of the page model. */
    method PrepareAsync(intent: Value) returns (o: Outcome)
      ensures o == prepareOutcome
    {
      o := prepareOutcome;
    }

    /**
     * Runs `PrepareAsync` with `IsPreparing` raised; afterwards, whether it
     * passed or failed, both flags are down, so `IsInitializing` never
     * rises again.
     */
    method OnPrepareAsync(intent: Value) returns (o: Outcome)
      modifies this
      ensures o == prepareOutcome
      ensures prepareCalls == old(prepareCalls) + [PrepareCall(intent, true)]
      ensures !isPreparing && !isInitializing
    {
      isPreparing := true;
      prepareCalls := prepareCalls + [PrepareCall(intent, isPreparing)];
      o := PrepareAsync(intent);
      isPreparing := false;
      isInitializing := false;
    }
  }

  // ---------------------------------------------------------------------
  // Content page
  // ---------------------------------------------------------------------

  /** Whether the sleep/resume hooks run only while the page is visible or for its whole lifetime. */
  datatype PageSleepBehavior = VisibleOnly | Lifetime

  /** The sleep/resume hooks of a page run in this state. */
  predicate HooksEnabled(behavior: PageSleepBehavior, appeared: bool)
  {
    behavior == Lifetime || appeared
  }

  /**
   * Under the default behaviour the hooks run exactly while the page is
   * visible; under `Lifetime` always. A statement of the source's guard,
   * which Dafny reads off `HooksEnabled` directly.
   */
  lemma HooksGating(appeared: bool)
    ensures HooksEnabled(VisibleOnly, appeared) <==> appeared
    ensures HooksEnabled(Lifetime, appeared)
  {
  }

  /** The application's `EnteringSleep` and `Resuming` events: the pages subscribed to each. */
  class MauxApplication {
    var enteringSleep: set<MauxContentPage>
    var resuming: set<MauxContentPage>

    constructor()
      ensures enteringSleep == {} && resuming == {}
    {
      enteringSleep := {};
      resuming := {};
    }
  }

  class MauxContentPage {
    const application: MauxApplication
    /** The navigation setter resolved from the application's services, if one is registered. */
    const navigationSetter: AppNavigation?
    /** The page's own `Navigation`, published to the setter when the page appears. */
    const navigation: Navigation
    var intent: Value
    /** Set on every intent assignment, cleared when the page model is prepared. */
    var intentChanged: bool
    var appeared: bool
    var sleepBehavior: PageSleepBehavior
    /** The binding context when it is a page model, null otherwise. */
    var bindingContext: MauxPageModel?
    /** Times `OnApplicationResuming` and `OnApplicationEnteringSleep` ran. */
    var resumingRuns: nat
    var enteringSleepRuns: nat

    /**
     * A new page holds `intent` and is dirty even when `intent` is null,
     * is subscribed to both application events, and is bound to
     * `pageModel` when one is given.
     */
    constructor(application: MauxApplication, navigationSetter: AppNavigation?, navigation: Navigation,
                pageModel: MauxPageModel?, intent: Value)
      modifies application
      ensures this.application == application && this.navigationSetter == navigationSetter
      ensures this.navigation == navigation
      ensures this.intent == intent && intentChanged
      ensures !appeared && sleepBehavior == VisibleOnly && bindingContext == pageModel
      ensures resumingRuns == 0 && enteringSleepRuns == 0
      ensures application.enteringSleep == old(application.enteringSleep) + {this}
      ensures application.resuming == old(application.resuming) + {this}
    {
      this.application := application;
      this.navigationSetter := navigationSetter;
      this.navigation := navigation;
      appeared := false;
      sleepBehavior := VisibleOnly;
      bindingContext := null;
      resumingRuns := 0;
      enteringSleepRuns := 0;
      new;
      SetIntent(intent);
      application.enteringSleep := application.enteringSleep + {this};
      application.resuming := application.resuming + {this};
      if pageModel != null {
        bindingContext := pageModel;
      }
    }

    /** The `Intent` setter: any assignment, even of null or of the same value, marks the page dirty. */
    method SetIntent(value: Value)
      modifies this`intent, this`intentChanged
      ensures intent == value && intentChanged
    {
      intentChanged := true;
      intent := value;
    }

    /** The protected `SleepBehavior` setter. */
    method SetSleepBehavior(behavior: PageSleepBehavior)
      modifies this`sleepBehavior
      ensures sleepBehavior == behavior
    {
      sleepBehavior := behavior;
    }

    /**
     * The page becomes visible and publishes its navigation; a dirty page
     * bound to a page model becomes clean and prepares it once with the
     * current intent. A dirty page without a page model stays dirty.
     */
    method OnAppearing()
      modifies this`appeared, this`intentChanged, navigationSetter, bindingContext
      ensures appeared && intent == old(intent)
      ensures navigationSetter != null ==> navigationSetter.current == navigation
      ensures old(intentChanged) && bindingContext != null ==>
                && !intentChanged
                && bindingContext.prepareCalls == old(bindingContext.prepareCalls) + [PrepareCall(intent, true)]
                && !bindingContext.isPreparing && !bindingContext.isInitializing
      ensures !(old(intentChanged) && bindingContext != null) ==> intentChanged == old(intentChanged)
      ensures !(old(intentChanged) && bindingContext != null) && bindingContext != null ==>
                unchanged(bindingContext)
    {
      appeared := true;
      if navigationSetter != null {
        navigationSetter.SetCurrentNavigation(navigation);
      }
      if intentChanged && bindingContext != null {
        intentChanged := false;
        var outcome := bindingContext.OnPrepareAsync(intent);
      }
    }

    method OnDisappearing()
      modifies this`appeared
      ensures !appeared
    {
      appeared := false;
    }

    /** The `Resuming` handler runs the hook only when the gating allows it. */
    method ApplicationResumingHandler()
      modifies this`resumingRuns
      ensures resumingRuns == old(resumingRuns) + if HooksEnabled(sleepBehavior, appeared) then 1 else 0
    {
      if sleepBehavior == Lifetime || appeared {
        resumingRuns := resumingRuns + 1;
      }
    }

    /** The `EnteringSleep` handler runs the hook only when the gating allows it. */
    method ApplicationEnteringSleepHandler()
      modifies this`enteringSleepRuns
      ensures enteringSleepRuns ==
                old(enteringSleepRuns) + if HooksEnabled(sleepBehavior, appeared) then 1 else 0
    {
      if sleepBehavior == Lifetime || appeared {
        enteringSleepRuns := enteringSleepRuns + 1;
      }
    }

    /** Unsubscribes the page from both application events and touches nothing else. */
    method Dispose()
      modifies application
      ensures application.enteringSleep == old(application.enteringSleep) - {this}
      ensures application.resuming == old(application.resuming) - {this}
    {
      application.enteringSleep := application.enteringSleep - {this};
      application.resuming := application.resuming - {this};
    }
  }

  // ---------------------------------------------------------------------
  // Shell page
  // ---------------------------------------------------------------------

  /** The intent a Shell query carries: the value under `"{Intent}"`, if that key is present. */
  function QueryIntent(query: map<string, Value>): (r: Option<Value>)
    ensures r.Some? <==> IntentParameterName in query
    ensures r.Some? ==> r.value == query[IntentParameterName]
  {
    if IntentParameterName in query then Some(query[IntentParameterName]) else None
  }

  /** Keys other than `"{Intent}"` have no effect: queries that agree on it carry the same intent. */
  lemma QueryIntentIgnoresOtherKeys(q1: map<string, Value>, q2: map<string, Value>)
    requires IntentParameterName in q1 <==> IntentParameterName in q2
    requires IntentParameterName in q1 ==> q1[IntentParameterName] == q2[IntentParameterName]
    ensures QueryIntent(q1) == QueryIntent(q2)
  {
  }

  /** A content page that also accepts Shell query attributes (a subclass in the library). */
  class MauxShellPage {
    const page: MauxContentPage

    constructor(page: MauxContentPage)
      ensures this.page == page
    {
      this.page := page;
    }

    /** A query with an intent assigns it to the page; any other query leaves the page as it is. */
    method ApplyQueryAttributes(query: map<string, Value>)
      modifies page`intent, page`intentChanged
      ensures QueryIntent(query).Some? ==> page.intent == QueryIntent(query).value && page.intentChanged
      ensures QueryIntent(query).None? ==> page.intent == old(page.intent)
      ensures QueryIntent(query).None? ==> page.intentChanged == old(page.intentChanged)
    {
      if IntentParameterName in query {
        page.SetIntent(query[IntentParameterName]);
      }
    }
  }

  // ---------------------------------------------------------------------
  // Stack navigation
  // ---------------------------------------------------------------------

  /** A page on a navigation stack: a Maux content page, or any other page known by identity. */
  datatype PageRef = ForeignPage(id: nat) | MauxPage(page: MauxContentPage)

  /** A call the facade hands to the host's `INavigation`. */
  datatype NavigationRequest =
    | Push(page: PageRef, animated: bool)
    | PushModal(page: PageRef, animated: bool)
    | InsertBefore(page: PageRef, before: PageRef)
    | Pop(animated: bool)
    | PopModal(animated: bool)
    | PopToRoot(animated: bool)
    | Remove(page: PageRef)

  /**
   * The host's `INavigation`: its two stacks, and the requests it received
   * in order. How the host then changes its stacks is not part of the model.
   */
  class Navigation {
    var navigationStack: seq<PageRef>
    var modalStack: seq<PageRef>
    var requests: seq<NavigationRequest>

    constructor(navigationStack: seq<PageRef>, modalStack: seq<PageRef>)
      ensures this.navigationStack == navigationStack && this.modalStack == modalStack
      ensures requests == []
    {
      this.navigationStack := navigationStack;
      this.modalStack := modalStack;
      requests := [];
    }

    /** The host received `request` and nothing else happened to it. */
    twostate predicate Requested(request: NavigationRequest)
      reads this
    {
      && requests == old(requests) + [request]
      && navigationStack == old(navigationStack)
      && modalStack == old(modalStack)
    }

    method Request(request: NavigationRequest)
      modifies this
      ensures Requested(request)
    {
      requests := requests + [request];
    }
  }

  /** The Maux page a reference denotes, if it is one. */
  function AsMaux(page: PageRef): (r: Option<MauxContentPage>)
    ensures r.Some? <==> page.MauxPage?
    ensures r.Some? ==> page == MauxPage(r.value)
  {
    if page.MauxPage? then Some(page.page) else None
  }

  /** The page that receives the intent of a push, a modal push or an insertion: the new page. */
  function PushTarget(page: PageRef, intent: Value): (t: Option<MauxContentPage>)
    ensures t.Some? ==> intent != Null && page == MauxPage(t.value)
  {
    if intent != Null && page.MauxPage? then Some(page.page) else None
  }

  /** The page that receives the intent of a pop: the one below the top. */
  function PopTarget(navigationStack: seq<PageRef>, intent: Value): (t: Option<MauxContentPage>)
    ensures t.Some? ==> intent != Null && MauxPage(t.value) in navigationStack
  {
    var n := |navigationStack|;
    if intent != Null && n > 1 && navigationStack[n - 2].MauxPage? then Some(navigationStack[n - 2].page)
    else None
  }

  /**
   * The page that receives the intent of a modal pop: the modal below the
   * top when there are two modals or more (nothing if it is not a Maux
   * page), otherwise the top of the navigation stack.
   */
  function PopModalTarget(modalStack: seq<PageRef>, navigationStack: seq<PageRef>, intent: Value)
    : (t: Option<MauxContentPage>)
    ensures t.Some? ==> intent != Null
    ensures t.Some? ==> MauxPage(t.value) in modalStack || MauxPage(t.value) in navigationStack
  {
    var m := |modalStack|;
    var n := |navigationStack|;
    if intent == Null then None
    else if m > 1 then
      if modalStack[m - 2].MauxPage? then Some(modalStack[m - 2].page) else None
    else if n > 0 && navigationStack[n - 1].MauxPage? then Some(navigationStack[n - 1].page)
    else None
  }

  /** The page that receives the intent of a pop to root: the root, when there is more than it. */
  function PopToRootTarget(navigationStack: seq<PageRef>, intent: Value): (t: Option<MauxContentPage>)
    ensures t.Some? ==> intent != Null && MauxPage(t.value) in navigationStack
  {
    if intent != Null && |navigationStack| > 1 && navigationStack[0].MauxPage? then Some(navigationStack[0].page)
    else None
  }

  /** The pages an intent assignment may change: the target, if any. */
  function Targets(t: Option<MauxContentPage>): (r: set<MauxContentPage>)
    ensures t.None? <==> r == {}
    ensures t.Some? ==> r == {t.value}
  {
    if t.Some? then {t.value} else {}
  }

  /**
   * A null intent is never delivered to any page: the source's
   * `intent is not null` guard, read off the four target functions.
   */
  lemma NullIntentHasNoTarget(page: PageRef, modalStack: seq<PageRef>, navigationStack: seq<PageRef>)
    ensures PushTarget(page, Null) == None
    ensures PopTarget(navigationStack, Null) == None
    ensures PopModalTarget(modalStack, navigationStack, Null) == None
    ensures PopToRootTarget(navigationStack, Null) == None
  {
  }

  /**
   * The stack after a pop (every page but the top), after a pop to root
   * (the root alone) and after a modal pop (every modal but the top).
   */
  function DropTop(stack: seq<PageRef>): (r: seq<PageRef>)
    requires |stack| > 0
    ensures |r| == |stack| - 1 && stack == r + [stack[|stack| - 1]]
  {
    stack[..|stack| - 1]
  }

  function Top(stack: seq<PageRef>): PageRef
    requires |stack| > 0
  {
    stack[|stack| - 1]
  }

  /** A pop delivers the intent to the page the pop reveals. */
  lemma PopTargetIsRevealedPage(navigationStack: seq<PageRef>, intent: Value)
    requires intent != Null && |navigationStack| > 1
    ensures PopTarget(navigationStack, intent) == AsMaux(Top(DropTop(navigationStack)))
  {
  }

  /** A pop to root delivers the intent to the root, the page left on screen. */
  lemma PopToRootTargetIsRevealedPage(navigationStack: seq<PageRef>, intent: Value)
    requires intent != Null && |navigationStack| > 1
    ensures PopToRootTarget(navigationStack, intent) == AsMaux(Top(navigationStack[..1]))
  {
  }

  /**
   * A modal pop delivers the intent to the page it reveals: the modal
   * below when one remains, otherwise the top of the navigation stack.
   */
  lemma PopModalTargetIsRevealedPage(modalStack: seq<PageRef>, navigationStack: seq<PageRef>, intent: Value)
    requires intent != Null && |modalStack| > 0
    ensures |modalStack| > 1 ==>
              PopModalTarget(modalStack, navigationStack, intent) == AsMaux(Top(DropTop(modalStack)))
    ensures |modalStack| == 1 && |navigationStack| > 0 ==>
              PopModalTarget(modalStack, navigationStack, intent) == AsMaux(Top(navigationStack))
    ensures |modalStack| == 1 && |navigationStack| == 0 ==>
              PopModalTarget(modalStack, navigationStack, intent) == None
  {
  }

  /**
   * `IAppNavigation`: push and pop through the current `INavigation`,
   * delivering an intent to the page that will be shown.
   */
  class AppNavigation {
    var current: Navigation?

    constructor()
      ensures current == null
    {
      current := null;
    }

    /** `SetCurrentNavigation`: replaces the context; null clears it. */
    method SetCurrentNavigation(navigation: Navigation?)
      modifies this`current
      ensures current == navigation
    {
      current := navigation;
    }

    method ThrowIfNoNavigation() returns (o: Outcome)
      ensures o == Pass <==> current != null
      ensures o.Fail? ==> o.error == InvalidOperation
    {
      if current == null {
        return Fail(InvalidOperation);
      }
      o := Pass;
    }

    method ModalStack() returns (r: Result<seq<PageRef>>)
      ensures r.Success? <==> current != null
      ensures r.Failure? ==> r.error == InvalidOperation
      ensures r.Success? ==> r.value == current.modalStack
    {
      var o := ThrowIfNoNavigation();
      if o.Fail? {
        return Failure(o.error);
      }
      r := Success(current.modalStack);
    }

    method NavigationStack() returns (r: Result<seq<PageRef>>)
      ensures r.Success? <==> current != null
      ensures r.Failure? ==> r.error == InvalidOperation
      ensures r.Success? ==> r.value == current.navigationStack
    {
      var o := ThrowIfNoNavigation();
      if o.Fail? {
        return Failure(o.error);
      }
      r := Success(current.navigationStack);
    }

    method RemovePage(page: PageRef) returns (o: Outcome)
      modifies current
      ensures o == Pass <==> current != null
      ensures o.Fail? ==> o.error == InvalidOperation
      ensures o.Pass? ==> current.Requested(Remove(page))
    {
      o := ThrowIfNoNavigation();
      if o.Fail? {
        return;
      }
      current.Request(Remove(page));
    }

    /**
     * Pushes `page`, the page the scoped factory created; a non-null
     * intent goes to it first when it is a Maux page.
     */
    method PushAsync(page: PageRef, intent: Value, animated: bool) returns (o: Outcome)
      modifies current, Targets(PushTarget(page, intent))`intent, Targets(PushTarget(page, intent))`intentChanged
      ensures o == Pass <==> current != null
      ensures o.Fail? ==> o.error == InvalidOperation && unchanged(Targets(PushTarget(page, intent)))
      ensures o.Pass? ==> current.Requested(Push(page, animated))
      ensures o.Pass? && PushTarget(page, intent).Some? ==>
                page.page.intent == intent && page.page.intentChanged
    {
      o := ThrowIfNoNavigation();
      if o.Fail? {
        return;
      }
      if intent != Null && page.MauxPage? {
        page.page.SetIntent(intent);
      }
      current.Request(Push(page, animated));
    }

    /** As `PushAsync`, onto the modal stack. */
    method PushModalAsync(page: PageRef, intent: Value, animated: bool) returns (o: Outcome)
      modifies current, Targets(PushTarget(page, intent))`intent, Targets(PushTarget(page, intent))`intentChanged
      ensures o == Pass <==> current != null
      ensures o.Fail? ==> o.error == InvalidOperation && unchanged(Targets(PushTarget(page, intent)))
      ensures o.Pass? ==> current.Requested(PushModal(page, animated))
      ensures o.Pass? && PushTarget(page, intent).Some? ==>
                page.page.intent == intent && page.page.intentChanged
    {
      o := ThrowIfNoNavigation();
      if o.Fail? {
        return;
      }
      if intent != Null && page.MauxPage? {
        page.page.SetIntent(intent);
      }
      current.Request(PushModal(page, animated));
    }

    /** As `PushAsync`, inserting the new page below `before`. */
    method InsertPageBefore(page: PageRef, before: PageRef, intent: Value) returns (o: Outcome)
      modifies current, Targets(PushTarget(page, intent))`intent, Targets(PushTarget(page, intent))`intentChanged
      ensures o == Pass <==> current != null
      ensures o.Fail? ==> o.error == InvalidOperation && unchanged(Targets(PushTarget(page, intent)))
      ensures o.Pass? ==> current.Requested(InsertBefore(page, before))
      ensures o.Pass? && PushTarget(page, intent).Some? ==>
                page.page.intent == intent && page.page.intentChanged
    {
      o := ThrowIfNoNavigation();
      if o.Fail? {
        return;
      }
      if intent != Null && page.MauxPage? {
        page.page.SetIntent(intent);
      }
      current.Request(InsertBefore(page, before));
    }

    /** The pages a pop with `intent` may change. */
    ghost function PopFrame(intent: Value): set<MauxContentPage>
      reads this, current
    {
      if current == null then {} else Targets(PopTarget(current.navigationStack, intent))
    }

    ghost function PopModalFrame(intent: Value): set<MauxContentPage>
      reads this, current
    {
      if current == null then {}
      else Targets(PopModalTarget(current.modalStack, current.navigationStack, intent))
    }

    ghost function PopToRootFrame(intent: Value): set<MauxContentPage>
      reads this, current
    {
      if current == null then {} else Targets(PopToRootTarget(current.navigationStack, intent))
    }

    /** Pops the top page; a non-null intent goes to the page below it when that is a Maux page. */
    method PopAsync(intent: Value, animated: bool) returns (o: Outcome)
      modifies current, PopFrame(intent)`intent, PopFrame(intent)`intentChanged
      ensures o == Pass <==> current != null
      ensures o.Fail? ==> o.error == InvalidOperation
      ensures o.Pass? ==> current.Requested(Pop(animated))
      ensures o.Pass? ==> var t := PopTarget(current.navigationStack, intent);
                t.Some? ==> t.value.intent == intent && t.value.intentChanged
    {
      o := ThrowIfNoNavigation();
      if o.Fail? {
        return;
      }
      var navigationStack := current.navigationStack;
      var n := |navigationStack|;
      if intent != Null && n > 1 && navigationStack[n - 2].MauxPage? {
        navigationStack[n - 2].page.SetIntent(intent);
      }
      current.Request(Pop(animated));
    }

    /**
     * Pops the top modal; a non-null intent goes to the modal below it, or
     * to the top of the navigation stack when no other modal remains.
     */
    method PopModalAsync(intent: Value, animated: bool) returns (o: Outcome)
      modifies current, PopModalFrame(intent)`intent, PopModalFrame(intent)`intentChanged
      ensures o == Pass <==> current != null
      ensures o.Fail? ==> o.error == InvalidOperation
      ensures o.Pass? ==> current.Requested(PopModal(animated))
      ensures o.Pass? ==> var t := PopModalTarget(current.modalStack, current.navigationStack, intent);
                t.Some? ==> t.value.intent == intent && t.value.intentChanged
    {
      o := ThrowIfNoNavigation();
      if o.Fail? {
        return;
      }
      var modalStack := current.modalStack;
      var navigationStack := current.navigationStack;
      var m := |modalStack|;
      var n := |navigationStack|;
      if intent != Null {
        if m > 1 {
          if modalStack[m - 2].MauxPage? {
            modalStack[m - 2].page.SetIntent(intent);
          }
        } else if n > 0 && navigationStack[n - 1].MauxPage? {
          navigationStack[n - 1].page.SetIntent(intent);
        }
      }
      current.Request(PopModal(animated));
    }

    /** Pops to the root; a non-null intent goes to the root when it is a Maux page and not alone. */
    method PopToRootAsync(intent: Value, animated: bool) returns (o: Outcome)
      modifies current, PopToRootFrame(intent)`intent, PopToRootFrame(intent)`intentChanged
      ensures o == Pass <==> current != null
      ensures o.Fail? ==> o.error == InvalidOperation
      ensures o.Pass? ==> current.Requested(PopToRoot(animated))
      ensures o.Pass? ==> var t := PopToRootTarget(current.navigationStack, intent);
                t.Some? ==> t.value.intent == intent && t.value.intentChanged
    {
      o := ThrowIfNoNavigation();
      if o.Fail? {
        return;
      }
      var navigationStack := current.navigationStack;
      if intent != Null && |navigationStack| > 1 && navigationStack[0].MauxPage? {
        navigationStack[0].page.SetIntent(intent);
      }
      current.Request(PopToRoot(animated));
    }
  }
}
