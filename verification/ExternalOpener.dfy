/** Links opened outside the app, most of them only once the user agrees, under
    any interleaving of links and answers
    (apps/minds/electron/link-routing.js:255-303). */
module ExternalOpener {
  import opened Options

  type Window = int
  type Scheme = string
  type CallId = nat

  /** A URL's scheme, and whether opening it takes the user's word. */
  datatype Rules = Rules(schemeOf: string -> Scheme, isAsked: string -> bool)

  datatype Link = Link(url: string, window: Window, workspace: Option<string>)

  datatype Answer = Accepted(remember: bool) | Declined | Failed

  datatype Event = Clicked(link: Link) | Answered(call: CallId, answer: Answer)

  // What the opener stands for

  /** The links being asked about, the scheme permissions, and what was opened. */
  datatype State = State(asked: map<CallId, Link>, next: CallId, allowed: set<(string, Scheme)>, opens: seq<Link>)

  predicate IsAllowed(rules: Rules, s: State, link: Link)
  {
    link.workspace.Some? && (link.workspace.value, rules.schemeOf(link.url)) in s.allowed
  }

  predicate SameQuestion(rules: Rules, a: Link, b: Link)
  {
    a.window == b.window && rules.schemeOf(a.url) == rules.schemeOf(b.url)
  }

  predicate IsBeingAsked(rules: Rules, s: State, link: Link)
  {
    exists id <- s.asked :: SameQuestion(rules, s.asked[id], link)
  }

  /** What an answer about `link` does. */
  function Concluded(rules: Rules, s: State, link: Link, answer: Answer): State
  {
    if !answer.Accepted? then s
    else
      var chosen := if answer.remember && link.workspace.Some?
                    then {(link.workspace.value, rules.schemeOf(link.url))} else {};
      s.(allowed := s.allowed + chosen, opens := s.opens + [link])
  }

  function Step(rules: Rules, s: State, e: Event): State
  {
    match e
    case Clicked(link) =>
      if !rules.isAsked(link.url) || IsAllowed(rules, s, link) then s.(opens := s.opens + [link])
      else if IsBeingAsked(rules, s, link) then s
      else s.(asked := s.asked[s.next := link], next := s.next + 1)
    case Answered(id, answer) =>
      if id !in s.asked then s
      else Concluded(rules, s.(asked := s.asked - {id}), s.asked[id], answer)
  }

  function Run(rules: Rules, s: State, events: seq<Event>): State
  {
    if events == [] then s else Step(rules, Run(rules, s, events[..|events| - 1]), events[|events| - 1])
  }

  function Initial(allowed: set<(string, Scheme)>): State
  {
    State(map[], 0, allowed, [])
  }

  // Over whole runs

  predicate OneDialogEach(rules: Rules, s: State)
  {
    && (forall id <- s.asked :: id < s.next)
    && (forall a <- s.asked, b <- s.asked :: SameQuestion(rules, s.asked[a], s.asked[b]) ==> a == b)
  }

  /** At most one dialog is open per window and scheme. */
  lemma {:induction false} AlwaysOneDialogEach(rules: Rules, allowed: set<(string, Scheme)>, events: seq<Event>)
    ensures OneDialogEach(rules, Run(rules, Initial(allowed), events))
  {
    if events != [] {
      AlwaysOneDialogEach(rules, allowed, events[..|events| - 1]);
    }
  }

  /** Nothing needs asking about the link: its kind never does, or the user
      chose to always allow its scheme for the workspace it came from. */
  predicate OpensAtOnce(rules: Rules, s: State, link: Link)
  {
    !rules.isAsked(link.url)
    || (match link.workspace case Some(w) => (w, rules.schemeOf(link.url)) in s.allowed case None => false)
  }

  /** A click opens its link at once, or gets a dialog of its own, or is dropped;
      and it is dropped only while a dialog about that scheme is open for its window. */
  lemma ClickOpensOrAsks(rules: Rules, s: State, link: Link)
    requires OneDialogEach(rules, s)
    ensures var t := Step(rules, s, Clicked(link));
      && t.allowed == s.allowed
      && (if OpensAtOnce(rules, s, link) then t.opens == s.opens + [link] && t.asked == s.asked
          else if exists id <- s.asked ::
                    s.asked[id].window == link.window && rules.schemeOf(s.asked[id].url) == rules.schemeOf(link.url) then
            t == s
          else
            t.opens == s.opens && s.next !in s.asked && t.asked == s.asked[s.next := link])
  {
    forall id | id in s.asked && s.asked[id].window == link.window
      ensures rules.schemeOf(s.asked[id].url) == rules.schemeOf(link.url) <==> SameQuestion(rules, s.asked[id], link)
    {
    }
  }

  /** An answer ends its own dialog and no other; accepted, it opens the link
      asked about, and remembered, allows its scheme for its workspace. */
  lemma AnswerConcludes(rules: Rules, s: State, id: CallId, answer: Answer)
    requires id in s.asked
    ensures var t := Step(rules, s, Answered(id, answer)); var link := s.asked[id];
      && t.asked == s.asked - {id}
      && t.opens == s.opens + (if answer.Accepted? then [link] else [])
      && forall p :: p in t.allowed <==>
           || p in s.allowed
           || (answer == Accepted(true) && link.workspace == Some(p.0) && p.1 == rules.schemeOf(link.url))
  {
    assert s.opens + [] == s.opens;
  }

  /** The user accepted a dialog of its own for `link`, as event `k`. */
  predicate AcceptedAt(rules: Rules, s0: State, events: seq<Event>, k: nat, link: Link, isRemembered: bool)
    requires k < |events|
  {
    && events[k].Answered? && events[k].answer.Accepted?
    && (isRemembered ==> events[k].answer.remember)
    && events[k].call in Run(rules, s0, events[..k]).asked
    && Run(rules, s0, events[..k]).asked[events[k].call] == link
  }

  /** The user chose to always allow the scheme for the workspace, before event `n`. */
  predicate Remembered(rules: Rules, s0: State, events: seq<Event>, workspace: string, scheme: Scheme)
  {
    exists k :: 0 <= k < |events| && events[k].Answered? && RememberedAt(rules, s0, events, k, workspace, scheme)
  }

  predicate RememberedAt(rules: Rules, s0: State, events: seq<Event>, k: nat, workspace: string, scheme: Scheme)
    requires k < |events| && events[k].Answered?
  {
    var asked := Run(rules, s0, events[..k]).asked;
    && events[k].call in asked
    && AcceptedAt(rules, s0, events, k, asked[events[k].call], true)
    && asked[events[k].call].workspace == Some(workspace)
    && rules.schemeOf(asked[events[k].call].url) == scheme
  }

  /** A scheme is allowed for a workspace only from the start, or by an accepted
      dialog for a link of that workspace and scheme that asked to remember it. */
  lemma {:induction false} AllowedWasChosen(rules: Rules, s0: State, events: seq<Event>, workspace: string, scheme: Scheme)
    ensures (workspace, scheme) in Run(rules, s0, events).allowed <==>
      (workspace, scheme) in s0.allowed || Remembered(rules, s0, events, workspace, scheme)
  {
    if events != [] {
      AllowedWasChosen(rules, s0, events[..|events| - 1], workspace, scheme);
      RememberedSnoc(rules, s0, events, workspace, scheme);
    }
  }

  /** The last event, or one before it, made the choice. */
  lemma RememberedSnoc(rules: Rules, s0: State, events: seq<Event>, workspace: string, scheme: Scheme)
    requires events != []
    ensures var last := |events| - 1;
      Remembered(rules, s0, events, workspace, scheme) <==>
      || Remembered(rules, s0, events[..last], workspace, scheme)
      || (events[last].Answered? && RememberedAt(rules, s0, events, last, workspace, scheme))
  {
    var last := |events| - 1;
    var init := events[..last];
    forall k | 0 <= k < last
      ensures init[..k] == events[..k] && init[k] == events[k]
      ensures events[k].Answered? ==>
                (RememberedAt(rules, s0, init, k, workspace, scheme) <==> RememberedAt(rules, s0, events, k, workspace, scheme))
    {
    }
    if Remembered(rules, s0, init, workspace, scheme) {
      var k :| 0 <= k < last && init[k].Answered? && RememberedAt(rules, s0, init, k, workspace, scheme);
      assert events[k].Answered? && RememberedAt(rules, s0, events, k, workspace, scheme);
    }
    if Remembered(rules, s0, events, workspace, scheme) {
      var k :| 0 <= k <= last && events[k].Answered? && RememberedAt(rules, s0, events, k, workspace, scheme);
      assert k == last || (init[k].Answered? && RememberedAt(rules, s0, init, k, workspace, scheme));
    }
  }

  /** Event `k` clicked `link` while its scheme was allowed, or accepted its dialog. */
  predicate ConsentedAt(rules: Rules, s0: State, events: seq<Event>, k: nat, link: Link)
    requires k < |events|
  {
    || (events[k] == Clicked(link) && IsAllowed(rules, Run(rules, s0, events[..k]), link))
    || AcceptedAt(rules, s0, events, k, link, false)
  }

  /** The link that event `e` lets open: one clicked that needs no asking or is
      allowed, or one whose own dialog it accepts. */
  function Consent(rules: Rules, s: State, e: Event): Option<Link>
  {
    match e
    case Clicked(link) => if !rules.isAsked(link.url) || IsAllowed(rules, s, link) then Some(link) else None
    case Answered(id, answer) => if id in s.asked && answer.Accepted? then Some(s.asked[id]) else None
  }

  /** The events that let a link open, in order. */
  function Consents(rules: Rules, s0: State, events: seq<Event>): (ks: seq<nat>)
    ensures forall i :: 0 <= i < |ks| ==> ks[i] < |events|
    ensures forall i, j :: 0 <= i < j < |ks| ==> ks[i] < ks[j]
  {
    if events == [] then []
    else
      var last := |events| - 1;
      Consents(rules, s0, events[..last]) +
      if Consent(rules, Run(rules, s0, events[..last]), events[last]).Some? then [last] else []
  }

  /** Event `k` let `link` open, with the user's word where that is asked for. */
  predicate OpenedAt(rules: Rules, s0: State, events: seq<Event>, k: nat, link: Link)
    requires k < |events|
  {
    && Consent(rules, Run(rules, s0, events[..k]), events[k]) == Some(link)
    && (rules.isAsked(link.url) ==> ConsentedAt(rules, s0, events, k, link))
  }

  lemma OneStepOpens(rules: Rules, s: State, e: Event)
    ensures var consent := Consent(rules, s, e);
      Step(rules, s, e).opens == s.opens + if consent.Some? then [consent.value] else []
  {
  }

  lemma ConsentIsGiven(rules: Rules, s0: State, events: seq<Event>, k: nat, link: Link)
    requires k < |events| && Consent(rules, Run(rules, s0, events[..k]), events[k]) == Some(link)
    ensures OpenedAt(rules, s0, events, k, link)
  {
  }

  lemma OpenedEarlier(rules: Rules, s0: State, events: seq<Event>, k: nat, link: Link)
    requires k < |events| - 1 && OpenedAt(rules, s0, events[..|events| - 1], k, link)
    ensures OpenedAt(rules, s0, events, k, link)
  {
    assert events[..|events| - 1][..k] == events[..k];
  }

  /** Each link opened is the doing of one event of its own, in order: for one
      that takes the user's word, a click on it while its scheme was allowed for
      its workspace, or the acceptance of its own dialog. And every such event
      opens its link once. */
  lemma {:induction false} OpensOnlyWithConsent(rules: Rules, s0: State, events: seq<Event>)
    ensures var opens := Run(rules, s0, events).opens; var ks := Consents(rules, s0, events);
      && |opens| == |s0.opens| + |ks| && s0.opens <= opens
      && (forall i, j :: 0 <= i < j < |ks| ==> ks[i] < ks[j])
      && (forall i :: 0 <= i < |ks| ==> OpenedAt(rules, s0, events, ks[i], opens[|s0.opens| + i]))
  {
    if events != [] {
      var last := |events| - 1;
      var init := events[..last];
      OpensOnlyWithConsent(rules, s0, init);
      var ks, opens := Consents(rules, s0, init), Run(rules, s0, init).opens;
      OneStepOpens(rules, Run(rules, s0, init), events[last]);
      forall i | 0 <= i < |ks| ensures OpenedAt(rules, s0, events, ks[i], opens[|s0.opens| + i]) {
        OpenedEarlier(rules, s0, events, ks[i], opens[|s0.opens| + i]);
      }
      var consent := Consent(rules, Run(rules, s0, init), events[last]);
      if consent.Some? {
        ConsentIsGiven(rules, s0, events, last, consent.value);
      }
    }
  }

  /** And a dialog is answered once: what one answer settled, no later one can. */
  lemma {:induction false} AnsweredOnce(rules: Rules, s0: State, events: seq<Event>, k: nat, m: nat)
    requires k < m <= |events| && events[k].Answered?
    requires forall id <- s0.asked :: id < s0.next
    requires events[k].call in Run(rules, s0, events[..k]).asked
    ensures events[k].call !in Run(rules, s0, events[..m]).asked
    decreases m
  {
    var id := events[k].call;
    NumberedBelowNext(rules, s0, events[..k]);
    assert events[..m][..m - 1] == events[..m - 1];
    if k < m - 1 {
      AnsweredOnce(rules, s0, events, k, m - 1);
      NextGrows(rules, s0, events, k, m - 1);
    }
  }

  lemma {:induction false} NumberedBelowNext(rules: Rules, s0: State, events: seq<Event>)
    requires forall id <- s0.asked :: id < s0.next
    ensures forall id <- Run(rules, s0, events).asked :: id < Run(rules, s0, events).next
  {
    if events != [] {
      NumberedBelowNext(rules, s0, events[..|events| - 1]);
    }
  }

  lemma {:induction false} NextGrows(rules: Rules, s0: State, events: seq<Event>, k: nat, m: nat)
    requires k <= m <= |events|
    ensures Run(rules, s0, events[..k]).next <= Run(rules, s0, events[..m]).next
    decreases m
  {
    if k < m {
      NextGrows(rules, s0, events, k, m - 1);
      assert events[..m][..m - 1] == events[..m - 1];
    }
  }

  // The opener itself

  /** A set object, by its identity: the map and the suspended calls refer to the same one. */
  type SetId = nat

  /** What a call suspended on its dialog still holds. */
  datatype Call = Call(link: Link, asked: SetId)

  datatype Store = Store(sets: seq<set<Scheme>>, asking: map<Window, SetId>, calls: map<CallId, Call>)
  {
    predicate Asks(w: Window, scheme: Scheme)
    {
      w in asking && asking[w] < |sets| && scheme in sets[asking[w]]
    }

    /** Windows have sets of their own, none of them empty. */
    predicate HasOwnSets()
    {
      && (forall w <- asking :: asking[w] < |sets| && sets[asking[w]] != {})
      && (forall v <- asking, w <- asking :: asking[v] == asking[w] ==> v == w)
    }

    /** A suspended call refers to the very set its window has, and its scheme is in it. */
    predicate RefersRightly(rules: Rules)
    {
      forall id <- calls ::
        && Asks(calls[id].link.window, rules.schemeOf(calls[id].link.url))
        && asking[calls[id].link.window] == calls[id].asked
    }

    predicate AsksOnce(rules: Rules)
    {
      forall a <- calls, b <- calls :: SameQuestion(rules, calls[a].link, calls[b].link) ==> a == b
    }

    ghost predicate Valid(rules: Rules)
    {
      && HasOwnSets() && RefersRightly(rules) && AsksOnce(rules)
      && forall w, scheme :: Asks(w, scheme) ==> InFlight(rules, w, scheme)
    }

    ghost predicate InFlight(rules: Rules, w: Window, scheme: Scheme)
    {
      exists id <- calls :: calls[id].link.window == w && rules.schemeOf(calls[id].link.url) == scheme
    }

    function Links(): map<CallId, Link>
    {
      map id | id in calls :: calls[id].link
    }

    function Begun(id: CallId, link: Link, scheme: Scheme): Store
    {
      var w := link.window;
      var own := if w in asking then asking[w] else |sets|;
      var all := if w in asking then sets else sets + [{}];
      if own >= |all| then this
      else Store(all[own := all[own] + {scheme}], asking[w := own], calls[id := Call(link, own)])
    }

    function Finished(id: CallId, scheme: Scheme): Store
      requires id in calls && calls[id].asked < |sets|
    {
      var own := calls[id].asked;
      var left := sets[own] - {scheme};
      Store(sets[own := left], if left == {} then asking - {calls[id].link.window} else asking, calls - {id})
    }
  }

  lemma AsksIsInFlight(rules: Rules, st: Store, w: Window, scheme: Scheme)
    requires st.Valid(rules)
    ensures st.Asks(w, scheme) <==> st.InFlight(rules, w, scheme)
  {
  }

  lemma BegunAsks(rules: Rules, st: Store, id: CallId, link: Link, w: Window, scheme: Scheme)
    requires st.Valid(rules)
    ensures st.Begun(id, link, rules.schemeOf(link.url)).Asks(w, scheme) <==>
      st.Asks(w, scheme) || (w == link.window && scheme == rules.schemeOf(link.url))
  {
  }

  lemma BegunHasOwnSets(rules: Rules, st: Store, id: CallId, link: Link)
    requires st.Valid(rules) && id !in st.calls
    requires !st.Asks(link.window, rules.schemeOf(link.url))
    ensures st.Begun(id, link, rules.schemeOf(link.url)).HasOwnSets()
    ensures st.Begun(id, link, rules.schemeOf(link.url)).RefersRightly(rules)
  {
    var t := st.Begun(id, link, rules.schemeOf(link.url));
    forall k | k in st.calls
      ensures t.Asks(st.calls[k].link.window, rules.schemeOf(st.calls[k].link.url))
    {
      BegunAsks(rules, st, id, link, st.calls[k].link.window, rules.schemeOf(st.calls[k].link.url));
    }
    BegunAsks(rules, st, id, link, link.window, rules.schemeOf(link.url));
  }

  lemma BegunInFlight(rules: Rules, st: Store, id: CallId, link: Link)
    requires st.Valid(rules) && id !in st.calls
    requires !st.Asks(link.window, rules.schemeOf(link.url))
    ensures var t := st.Begun(id, link, rules.schemeOf(link.url));
      (forall w, scheme :: t.Asks(w, scheme) ==> t.InFlight(rules, w, scheme)) && t.AsksOnce(rules)
  {
    var t := st.Begun(id, link, rules.schemeOf(link.url));
    assert t.calls[id].link == link;
    forall w, scheme | t.Asks(w, scheme) ensures t.InFlight(rules, w, scheme) {
      BegunAsks(rules, st, id, link, w, scheme);
      if st.Asks(w, scheme) {
        var k :| k in st.calls && st.calls[k].link.window == w && rules.schemeOf(st.calls[k].link.url) == scheme;
        assert k in t.calls && t.calls[k] == st.calls[k];
      }
    }
    forall a | a in st.calls ensures !SameQuestion(rules, st.calls[a].link, link) {
      assert st.Asks(st.calls[a].link.window, rules.schemeOf(st.calls[a].link.url));
    }
  }

  lemma BeginKeeps(rules: Rules, st: Store, id: CallId, link: Link)
    requires st.Valid(rules) && id !in st.calls
    requires !st.Asks(link.window, rules.schemeOf(link.url))
    ensures st.Begun(id, link, rules.schemeOf(link.url)).Valid(rules)
    ensures st.Begun(id, link, rules.schemeOf(link.url)).Links() == st.Links()[id := link]
  {
    BegunHasOwnSets(rules, st, id, link);
    BegunInFlight(rules, st, id, link);
  }

  lemma FinishedAsks(rules: Rules, st: Store, id: CallId, w: Window, scheme: Scheme)
    requires st.Valid(rules) && id in st.calls
    ensures var link := st.calls[id].link;
      st.Finished(id, rules.schemeOf(link.url)).Asks(w, scheme) <==>
      st.Asks(w, scheme) && !(w == link.window && scheme == rules.schemeOf(link.url))
  {
    var link := st.calls[id].link;
    var own := st.calls[id].asked;
    var t := st.Finished(id, rules.schemeOf(link.url));
    var left := st.sets[own] - {rules.schemeOf(link.url)};
    assert st.Asks(link.window, rules.schemeOf(link.url)) && st.asking[link.window] == own;
    assert t.sets[own] == left;
    if w in st.asking {
      assert st.asking[w] == own <==> w == link.window;
      assert t.sets[st.asking[w]] == if w == link.window then left else st.sets[st.asking[w]];
      assert scheme in st.sets[own] && scheme != rules.schemeOf(link.url) ==> scheme in left;
    }
  }

  lemma FinishedHasOwnSets(rules: Rules, st: Store, id: CallId)
    requires st.Valid(rules) && id in st.calls
    ensures var t := st.Finished(id, rules.schemeOf(st.calls[id].link.url)); t.HasOwnSets() && t.RefersRightly(rules)
  {
    var link := st.calls[id].link;
    var t := st.Finished(id, rules.schemeOf(link.url));
    assert st.asking[link.window] == st.calls[id].asked;
    forall k | k in t.calls
      ensures t.Asks(t.calls[k].link.window, rules.schemeOf(t.calls[k].link.url))
      ensures t.asking[t.calls[k].link.window] == t.calls[k].asked
    {
      FinishedAsks(rules, st, id, t.calls[k].link.window, rules.schemeOf(t.calls[k].link.url));
      assert SameQuestion(rules, st.calls[k].link, link) ==> k == id;
    }
  }

  lemma FinishedInFlight(rules: Rules, st: Store, id: CallId, w: Window, scheme: Scheme)
    requires st.Valid(rules) && id in st.calls
    requires st.Finished(id, rules.schemeOf(st.calls[id].link.url)).Asks(w, scheme)
    ensures st.Finished(id, rules.schemeOf(st.calls[id].link.url)).InFlight(rules, w, scheme)
  {
    var t := st.Finished(id, rules.schemeOf(st.calls[id].link.url));
    FinishedAsks(rules, st, id, w, scheme);
    var k :| k in st.calls && st.calls[k].link.window == w && rules.schemeOf(st.calls[k].link.url) == scheme;
    assert k in t.calls && t.calls[k] == st.calls[k];
  }

  lemma FinishedLinks(st: Store, id: CallId, scheme: Scheme)
    requires id in st.calls && st.calls[id].asked < |st.sets|
    ensures st.Finished(id, scheme).Links() == st.Links() - {id}
  {
  }

  lemma FinishedAsksOnce(rules: Rules, st: Store, id: CallId)
    requires st.Valid(rules) && id in st.calls
    ensures st.Finished(id, rules.schemeOf(st.calls[id].link.url)).AsksOnce(rules)
  {
    var t := st.Finished(id, rules.schemeOf(st.calls[id].link.url));
    forall a, b | a in t.calls && b in t.calls && SameQuestion(rules, t.calls[a].link, t.calls[b].link) ensures a == b {
      assert t.calls[a] == st.calls[a] && t.calls[b] == st.calls[b];
    }
  }

  lemma FinishKeeps(rules: Rules, st: Store, id: CallId)
    requires st.Valid(rules) && id in st.calls
    ensures var t := st.Finished(id, rules.schemeOf(st.calls[id].link.url));
      t.Valid(rules) && t.Links() == st.Links() - {id}
  {
    FinishedHasOwnSets(rules, st, id);
    FinishedAsksOnce(rules, st, id);
    FinishedLinks(st, id, rules.schemeOf(st.calls[id].link.url));
    forall w, scheme | st.Finished(id, rules.schemeOf(st.calls[id].link.url)).Asks(w, scheme)
      ensures st.Finished(id, rules.schemeOf(st.calls[id].link.url)).InFlight(rules, w, scheme)
    {
      FinishedInFlight(rules, st, id, w, scheme);
    }
  }

  class Opener {
    const rules: Rules
    var sets: seq<set<Scheme>>
    var asking: map<Window, SetId>
    var calls: map<CallId, Call>
    var next: CallId
    var allowed: set<(string, Scheme)>
    var opens: seq<Link>

    function Asking(): Store
      reads this
    {
      Store(sets, asking, calls)
    }

    /** The `asking` map equals exactly the links in flight, with no empty sets. */
    ghost predicate Valid()
      reads this
    {
      Asking().Valid(rules) && forall id <- calls :: id < next
    }

    function View(): State
      reads this
    {
      State(Asking().Links(), next, allowed, opens)
    }

    constructor (rules: Rules, allowed: set<(string, Scheme)>)
      ensures Valid() && View() == Initial(allowed) && this.rules == rules
    {
      this.rules, this.allowed := rules, allowed;
      sets, asking, calls, next, opens := [], map[], map[], 0, [];
    }

    method Suspend(link: Link, scheme: Scheme) returns (call: CallId)
      requires forall w <- asking :: asking[w] < |sets|
      modifies `sets, `asking, `calls, `next
      ensures call == old(next) && next == call + 1
      ensures Asking() == old(Asking()).Begun(call, link, scheme)
    {
      if link.window !in asking {
        asking := asking[link.window := |sets|];
        sets := sets + [{}];
      }
      var schemesAsked := asking[link.window];
      sets := sets[schemesAsked := sets[schemesAsked] + {scheme}];
      call := next;
      calls := calls[next := Call(link, schemesAsked)];
      next := next + 1;
      assert asking == asking[link.window := schemesAsked];
    }

    method Resume(id: CallId, scheme: Scheme)
      requires id in calls && calls[id].asked < |sets|
      modifies `sets, `asking, `calls
      ensures Asking() == old(Asking()).Finished(id, scheme)
    {
      var schemesAsked := calls[id].asked;
      sets := sets[schemesAsked := sets[schemesAsked] - {scheme}];
      if sets[schemesAsked] == {} {
        asking := asking - {calls[id].link.window};
      }
      calls := calls - {id};
    }

    /** Up to the dialog: the call it suspends, if it opens one. */
    method OpenExternal(link: Link) returns (suspended: Option<CallId>)
      requires Valid()
      modifies this
      ensures Valid() && View() == Step(rules, old(View()), Clicked(link))
      ensures suspended == if View().asked == old(View()).asked then None else Some(old(next))
    {
      if !rules.isAsked(link.url) {
        opens := opens + [link];
        return None;
      }
      var scheme := rules.schemeOf(link.url);
      if link.workspace.Some? && (link.workspace.value, scheme) in allowed {
        opens := opens + [link];
        return None;
      }
      BeingAskedIsAsking(rules, View(), Asking(), link);
      if link.window in asking && scheme in sets[asking[link.window]] {
        return None;
      }
      BeginKeeps(rules, Asking(), next, link);
      assert next !in View().asked;
      var call := Suspend(link, scheme);
      assert call in View().asked;
      suspended := Some(call);
    }

    /** After the dialog: it was answered, or asking failed. */
    method OnAnswer(id: CallId, answer: Answer)
      requires Valid() && id in calls
      modifies this
      ensures Valid() && View() == Step(rules, old(View()), Answered(id, answer))
    {
      var link := calls[id].link;
      var scheme := rules.schemeOf(link.url);
      FinishKeeps(rules, Asking(), id);
      assert View().asked[id] == link;
      Resume(id, scheme);
      Conclude(link, scheme, answer);
    }

    method Conclude(link: Link, scheme: Scheme, answer: Answer)
      requires scheme == rules.schemeOf(link.url)
      modifies `allowed, `opens
      ensures View() == Concluded(rules, old(View()), link, answer)
    {
      if !answer.Accepted? { return; }
      if answer.remember && link.workspace.Some? {
        allowed := allowed + {(link.workspace.value, scheme)};
      }
      opens := opens + [link];
    }
  }

  lemma BeingAskedIsAsking(rules: Rules, s: State, st: Store, link: Link)
    requires st.Valid(rules) && s.asked == st.Links()
    ensures IsBeingAsked(rules, s, link) <==> st.Asks(link.window, rules.schemeOf(link.url))
  {
    if st.Asks(link.window, rules.schemeOf(link.url)) {
      var k :| k in st.calls && st.calls[k].link.window == link.window
        && rules.schemeOf(st.calls[k].link.url) == rules.schemeOf(link.url);
      assert k in s.asked && SameQuestion(rules, s.asked[k], link);
    }
    if IsBeingAsked(rules, s, link) {
      var k :| k in s.asked && SameQuestion(rules, s.asked[k], link);
      assert st.Asks(st.calls[k].link.window, rules.schemeOf(st.calls[k].link.url));
    }
  }
}
