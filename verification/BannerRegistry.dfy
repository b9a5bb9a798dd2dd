/** The banners the OS may still be showing, per chat, with events on them
    delivered at any later time (apps/minds/electron/notifications.js:85-118). */
module BannerRegistry {

  type Chat = string
  type Banner = int

  // What the registry stands for

  datatype Event = Remembered(chat: Chat, banner: Banner) | Delivered(banner: Banner) | ChatClosed(chat: Chat)

  type Live = set<(Chat, Banner)>

  function Step(live: Live, e: Event): Live
  {
    match e
    case Remembered(chat, banner) => if chat == "" then live else live + {(chat, banner)}
    case Delivered(banner) => set p | p in live && p.1 != banner
    case ChatClosed(chat) => set p | p in live && p.0 != chat
  }

  function Run(events: seq<Event>): Live
  {
    if events == [] then {} else Step(Run(events[..|events| - 1]), events[|events| - 1])
  }

  predicate Ends(e: Event, chat: Chat, banner: Banner)
  {
    e == Delivered(banner) || e == ChatClosed(chat)
  }

  /** Remembered at some point, and neither it nor its chat ended since. */
  predicate IsStanding(events: seq<Event>, chat: Chat, banner: Banner)
  {
    chat != "" && exists k :: 0 <= k < |events| && StandsFrom(events, k, chat, banner)
  }

  predicate StandsFrom(events: seq<Event>, k: nat, chat: Chat, banner: Banner)
    requires k < |events|
  {
    events[k] == Remembered(chat, banner) && forall j :: k < j < |events| ==> !Ends(events[j], chat, banner)
  }

  /** The live set is exactly the banners remembered and not ended since. */
  lemma {:induction false} LiveIsStanding(events: seq<Event>, chat: Chat, banner: Banner)
    ensures (chat, banner) in Run(events) <==> IsStanding(events, chat, banner)
  {
    if events != [] {
      var init, last := events[..|events| - 1], events[|events| - 1];
      LiveIsStanding(init, chat, banner);
      if IsStanding(init, chat, banner) && !Ends(last, chat, banner) {
        var k :| 0 <= k < |init| && StandsFrom(init, k, chat, banner);
        assert forall j :: k <= j < |init| ==> events[j] == init[j];
        assert StandsFrom(events, k, chat, banner);
      }
      if IsStanding(events, chat, banner) && last != Remembered(chat, banner) {
        var k :| 0 <= k < |events| && StandsFrom(events, k, chat, banner);
        assert k < |init|;
        assert forall j :: k <= j < |init| ==> init[j] == events[j];
        assert StandsFrom(init, k, chat, banner);
      }
      if chat != "" && last == Remembered(chat, banner) {
        assert StandsFrom(events, |init|, chat, banner);
      }
    }
  }

  // The registry itself

  /** A set object, by its identity: the map and the closures refer to the same one. */
  type SetId = nat

  /** What `remember` subscribes: the set and the chat its closure captured. */
  datatype Listener = Listener(banners: SetId, chat: Chat)

  /** `sets` holds each set made so far, also those no chat is mapped to any more. */
  datatype Store = Store(sets: seq<set<Banner>>, byChat: map<Chat, SetId>, listeners: map<Banner, seq<Listener>>)
  {
    predicate Has(chat: Chat, banner: Banner)
    {
      chat in byChat && byChat[chat] < |sets| && banner in sets[byChat[chat]]
    }

    function ListenersOf(banner: Banner): seq<Listener>
    {
      if banner in listeners then listeners[banner] else []
    }

    /** Chats have sets of their own, none of them empty. */
    predicate HasOwnSets()
    {
      && "" !in byChat
      && (forall c <- byChat :: byChat[c] < |sets| && sets[byChat[c]] != {})
      && (forall c <- byChat, d <- byChat :: byChat[c] == byChat[d] ==> c == d)
    }

    /** A listener refers to its own chat's set, or to one no longer in use. */
    predicate ListensRightly(l: Listener)
    {
      l.banners < |sets| && forall c <- byChat :: byChat[c] == l.banners ==> c == l.chat
    }

    /** And each banner shown has a listener that refers to the very set it is in. */
    ghost predicate Valid()
    {
      && HasOwnSets()
      && (forall b, l :: l in ListenersOf(b) ==> ListensRightly(l))
      && (forall c, b :: Has(c, b) ==> Listener(byChat[c], c) in ListenersOf(b))
    }

    ghost predicate Shows(live: Live)
    {
      forall c, b :: (c, b) in live <==> Has(c, b)
    }

    /** A set of its own for a chat that has none. */
    function WithSet(chat: Chat): Store
    {
      if chat in byChat then this else Store(sets + [{}], byChat[chat := |sets|], listeners)
    }

    function Added(chat: Chat, banner: Banner): Store
      requires chat in byChat && byChat[chat] < |sets|
    {
      var id := byChat[chat];
      Store(sets[id := sets[id] + {banner}], byChat,
            listeners[banner := ListenersOf(banner) + [Listener(id, chat)]])
    }

    /** One subscription's reaction to its banner being clicked or closed. */
    function Forgotten(l: Listener, banner: Banner): Store
      requires l.banners < |sets|
    {
      var left := sets[l.banners] - {banner};
      Store(sets[l.banners := left],
            if left == {} && l.chat in byChat && byChat[l.chat] == l.banners then byChat - {l.chat} else byChat,
            listeners)
    }
  }

  lemma AddedHas(s: Store, chat: Chat, banner: Banner, c: Chat, b: Banner)
    requires s.Valid() && chat != ""
    ensures s.WithSet(chat).Added(chat, banner).Has(c, b) <==> s.Has(c, b) || (c, b) == (chat, banner)
  {
  }

  lemma AddedListens(s: Store, chat: Chat, banner: Banner, b: Banner, l: Listener)
    requires s.Valid() && chat != ""
    requires l in s.WithSet(chat).Added(chat, banner).ListenersOf(b)
    ensures s.WithSet(chat).Added(chat, banner).ListensRightly(l)
  {
    var t := s.WithSet(chat);
    if l in s.ListenersOf(b) {
      assert s.ListensRightly(l);
    } else {
      assert l == Listener(t.byChat[chat], chat);
    }
  }

  lemma AddedIsHeard(s: Store, chat: Chat, banner: Banner, c: Chat, b: Banner)
    requires s.Valid() && chat != ""
    requires s.WithSet(chat).Added(chat, banner).Has(c, b)
    ensures var t := s.WithSet(chat).Added(chat, banner); Listener(t.byChat[c], c) in t.ListenersOf(b)
  {
    AddedHas(s, chat, banner, c, b);
    var t := s.WithSet(chat);
    var u := t.Added(chat, banner);
    if s.Has(c, b) {
      assert Listener(s.byChat[c], c) in s.ListenersOf(b);
      assert t.byChat[c] == s.byChat[c];
    } else {
      assert u.ListenersOf(b)[|t.ListenersOf(b)|] == Listener(t.byChat[chat], chat);
    }
  }

  lemma AddKeeps(s: Store, chat: Chat, banner: Banner, live: Live)
    requires s.Valid() && s.Shows(live) && chat != ""
    ensures var t := s.WithSet(chat).Added(chat, banner); t.Valid() && t.Shows(live + {(chat, banner)})
  {
    var t := s.WithSet(chat).Added(chat, banner);
    forall c, b ensures t.Has(c, b) <==> s.Has(c, b) || (c, b) == (chat, banner) {
      AddedHas(s, chat, banner, c, b);
    }
    forall b, l | l in t.ListenersOf(b) ensures t.ListensRightly(l) {
      AddedListens(s, chat, banner, b, l);
    }
    forall c, b | t.Has(c, b) ensures Listener(t.byChat[c], c) in t.ListenersOf(b) {
      AddedIsHeard(s, chat, banner, c, b);
    }
  }

  lemma ForgottenHas(s: Store, l: Listener, banner: Banner, c: Chat, b: Banner)
    requires s.Valid() && s.ListensRightly(l)
    ensures s.Forgotten(l, banner).Has(c, b) <==>
      s.Has(c, b) && !(b == banner && c == l.chat && s.byChat[c] == l.banners)
    ensures s.Forgotten(l, banner).Has(c, b) ==> s.Forgotten(l, banner).byChat[c] == s.byChat[c]
  {
    var t := s.Forgotten(l, banner);
    var left := s.sets[l.banners] - {banner};
    assert t.sets[l.banners] == left;
    if c in s.byChat {
      var id := s.byChat[c];
      assert t.sets[id] == if id == l.banners then left else s.sets[id];
      if id == l.banners {
        assert b in s.sets[id] && b != banner ==> b in left;
      }
    }
  }

  lemma ForgetKeeps(s: Store, l: Listener, banner: Banner)
    requires s.Valid() && s.ListensRightly(l)
    ensures s.Forgotten(l, banner).Valid()
  {
    var t := s.Forgotten(l, banner);
    forall b, m | m in t.ListenersOf(b) ensures t.ListensRightly(m) {
      assert m in s.ListenersOf(b) && s.ListensRightly(m);
    }
    forall c, b | t.Has(c, b) ensures Listener(t.byChat[c], c) in t.ListenersOf(b) {
      ForgottenHas(s, l, banner, c, b);
    }
  }

  /** After the first `i` listeners of `banner` have reacted. */
  ghost predicate PartlyForgotten(s: Store, t: Store, banner: Banner, i: nat)
  {
    && t.Valid() && t.listeners == s.listeners
    && (forall c, b :: b != banner ==> (t.Has(c, b) <==> s.Has(c, b)))
    && (forall c :: t.Has(c, banner) ==>
          s.Has(c, banner) && exists k :: i <= k < |s.ListenersOf(banner)| && s.ListenersOf(banner)[k] == Listener(t.byChat[c], c))
  }

  lemma ForgetBegins(s: Store, banner: Banner)
    requires s.Valid()
    ensures PartlyForgotten(s, s, banner, 0)
  {
    forall c | s.Has(c, banner)
      ensures exists k :: 0 <= k < |s.ListenersOf(banner)| && s.ListenersOf(banner)[k] == Listener(s.byChat[c], c)
    {
      assert Listener(s.byChat[c], c) in s.ListenersOf(banner);
    }
  }

  lemma ForgetStep(s: Store, t: Store, banner: Banner, i: nat)
    requires PartlyForgotten(s, t, banner, i) && i < |s.ListenersOf(banner)|
    ensures t.ListensRightly(s.ListenersOf(banner)[i])
    ensures PartlyForgotten(s, t.Forgotten(s.ListenersOf(banner)[i], banner), banner, i + 1)
  {
    var l := s.ListenersOf(banner)[i];
    assert l in t.ListenersOf(banner);
    assert t.ListensRightly(l);
    var u := t.Forgotten(l, banner);
    ForgetKeeps(t, l, banner);
    forall c, b | b != banner ensures u.Has(c, b) <==> s.Has(c, b) {
      ForgottenHas(t, l, banner, c, b);
    }
    forall c | u.Has(c, banner)
      ensures s.Has(c, banner)
      ensures exists k :: i + 1 <= k < |s.ListenersOf(banner)| && s.ListenersOf(banner)[k] == Listener(u.byChat[c], c)
    {
      ForgottenHas(t, l, banner, c, banner);
      var k :| i <= k < |s.ListenersOf(banner)| && s.ListenersOf(banner)[k] == Listener(t.byChat[c], c);
    }
  }

  lemma ForgetEnds(s: Store, t: Store, banner: Banner, live: Live)
    requires PartlyForgotten(s, t, banner, |s.ListenersOf(banner)|) && s.Shows(live)
    ensures t.Shows(Step(live, Delivered(banner)))
  {
    forall c, b ensures (c, b) in Step(live, Delivered(banner)) <==> t.Has(c, b) {
    }
  }

  lemma CloseKeeps(s: Store, chat: Chat, live: Live)
    requires s.Valid() && s.Shows(live)
    ensures var t := s.(byChat := s.byChat - {chat}); t.Valid() && t.Shows(Step(live, ChatClosed(chat)))
  {
    var t := s.(byChat := s.byChat - {chat});
    forall c, b ensures t.Has(c, b) <==> s.Has(c, b) && c != chat {
    }
    forall b, l | l in t.ListenersOf(b) ensures t.ListensRightly(l) {
      assert l in s.ListenersOf(b) && s.ListensRightly(l);
    }
    forall c, b | t.Has(c, b) ensures Listener(t.byChat[c], c) in t.ListenersOf(b) {
      assert s.Has(c, b);
    }
  }

  class Registry {
    var sets: seq<set<Banner>>
    var byChat: map<Chat, SetId>
    var listeners: map<Banner, seq<Listener>>

    function View(): Store
      reads this
    {
      Store(sets, byChat, listeners)
    }

    constructor ()
      ensures View().Valid() && View().Shows({})
    {
      sets, byChat, listeners := [], map[], map[];
    }

    method Remember(chat: Chat, banner: Banner, ghost live: Live)
      requires View().Valid() && View().Shows(live)
      modifies this
      ensures View().Valid() && View().Shows(Step(live, Remembered(chat, banner)))
    {
      if chat == "" { return; }
      AddKeeps(View(), chat, banner, live);
      if chat !in byChat {
        byChat := byChat[chat := |sets|];
        sets := sets + [{}];
      }
      var banners := byChat[chat];
      var subscribed := if banner in listeners then listeners[banner] else [];
      sets := sets[banners := sets[banners] + {banner}];
      listeners := listeners[banner := subscribed + [Listener(banners, chat)]];
    }

    method Forget(l: Listener, banner: Banner)
      requires l.banners < |sets|
      modifies `sets, `byChat
      ensures View() == old(View()).Forgotten(l, banner)
    {
      sets := sets[l.banners := sets[l.banners] - {banner}];
      if sets[l.banners] == {} && l.chat in byChat && byChat[l.chat] == l.banners {
        byChat := byChat - {l.chat};
      }
    }

    /** A click or close of `banner`: everything subscribed to it reacts, in order. */
    method Deliver(banner: Banner, ghost live: Live)
      requires View().Valid() && View().Shows(live)
      modifies `sets, `byChat
      ensures View().Valid() && View().Shows(Step(live, Delivered(banner)))
    {
      ghost var before := View();
      var subscribed := if banner in listeners then listeners[banner] else [];
      ForgetBegins(before, banner);
      for i := 0 to |subscribed|
        invariant PartlyForgotten(before, View(), banner, i)
      {
        ForgetStep(before, View(), banner, i);
        Forget(subscribed[i], banner);
      }
      ForgetEnds(before, View(), banner, live);
    }

    /** Takes the chat's banners down; answers how many there were. */
    method CloseChat(chat: Chat, ghost live: Live) returns (count: nat, closing: set<Banner>)
      requires View().Valid() && View().Shows(live)
      modifies `byChat
      ensures View().Valid() && View().Shows(Step(live, ChatClosed(chat)))
      ensures (forall b :: b in closing <==> (chat, b) in live) && count == |closing|
    {
      CloseKeeps(View(), chat, live);
      assert forall b :: (chat, b) in live <==> View().Has(chat, b);
      if chat !in byChat {
        assert byChat - {chat} == byChat;
        return 0, {};
      }
      closing := sets[byChat[chat]];
      byChat := byChat - {chat};
      count := |closing|;
    }
  }
}
