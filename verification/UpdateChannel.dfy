/** Channels, feeds and the updater singleton they are applied to
    (apps/minds/electron/update-channel.js:13, 46-62, 85-135, 198-200). */
module UpdateChannel {
  import opened Options

  type Version = int

  datatype Channel = Stable | Beta | Alpha

  /** What a build is: its version, whether it names a manifest host, when it installs. */
  datatype Config = Config(current: Version, hasHost: bool, isInstalledOnQuit: bool)

  function AvailableChannels(c: Config): (channels: seq<Channel>)
    ensures channels != []
  {
    if c.hasHost then [Stable, Beta, Alpha] else [Stable]
  }

  /** `readChannel`: the stored preference, or stable when it is missing or this build cannot serve it. */
  function ReadChannel(c: Config, preference: Option<Channel>): Channel
  {
    if preference.Some? && preference.value in AvailableChannels(c) then preference.value else Stable
  }

  datatype FeedName = Named(channel: Channel) | Latest

  datatype Feed = Feed(isHosted: bool, name: FeedName)

  function FeedFor(c: Config, channel: Channel): Feed
  {
    if c.hasHost then Feed(true, Named(channel)) else Feed(false, Latest)
  }

  /** A check electron-updater made: for which of our tasks, against which feed, under which rule. */
  datatype Request = Request(owner: nat, feed: Feed, allowDowngrade: bool)

  /** The update the last check that found one left behind. */
  datatype Found = Found(version: Version, request: nat)

  datatype Updater = Updater(
    name: FeedName,
    isHosted: bool,
    allowDowngrade: bool,
    isAutoDownload: bool,
    isAutoInstall: bool,
    promise: Option<nat>,
    found: Option<Found>,
    requests: seq<Request>)

  function FeedOf(u: Updater): Feed
  {
    Feed(u.isHosted, u.name)
  }

  /** The singleton pointed at a feed, with downgrades refused. */
  function Pointed(u: Updater, feed: Feed): Updater
  {
    u.(name := feed.name, isHosted := feed.isHosted,
       allowDowngrade := false, isAutoDownload := false, isAutoInstall := false)
  }

  /** `checkForUpdates()`: joins the check in flight, else starts a request. */
  function Asked(u: Updater, owner: nat): Updater
  {
    if u.promise.Some? then u
    else u.(promise := Some(|u.requests|), requests := u.requests + [Request(owner, FeedOf(u), u.allowDowngrade)])
  }

  function InFlight(u: Updater): nat
  {
    if u.promise.Some? then u.promise.value else 0
  }

  datatype Answer = Offers(version: Version) | OffersNothing | Rejects | TimesOut

  /** The check in flight is over: it settled, or it is forgotten on its deadline. */
  function Answered(u: Updater, request: nat, answer: Answer): Updater
  {
    var over := u.(promise := None);
    if answer.Offers? then over.(found := Some(Found(answer.version, request))) else over
  }

  predicate IsAlreadyStaged(answer: Answer, downloadedVersion: Option<Version>)
  {
    answer.Offers? && downloadedVersion.Some? && answer.version == downloadedVersion.value
  }

  /** electron-updater's own object, with its setter that turns downgrades on. */
  class AutoUpdater {
    var name: FeedName
    var isHosted: bool
    var allowDowngrade: bool
    var isAutoDownload: bool
    var isAutoInstall: bool
    var promise: Option<nat>
    var found: Option<Found>
    var requests: seq<Request>

    function View(): Updater
      reads this
    {
      Updater(name, isHosted, allowDowngrade, isAutoDownload, isAutoInstall, promise, found, requests)
    }

    constructor ()
      ensures View() == Updater(Latest, false, false, true, true, None, None, [])
    {
      name, isHosted, allowDowngrade := Latest, false, false;
      isAutoDownload, isAutoInstall, promise, found, requests := true, true, None, None, [];
    }

    method SetChannel(name: FeedName)
      modifies `name, `allowDowngrade
      ensures this.name == name && allowDowngrade
    {
      this.name := name;
      allowDowngrade := true;
    }

    method SetFeedUrl(isHosted: bool)
      modifies `isHosted
      ensures this.isHosted == isHosted
    {
      this.isHosted := isHosted;
    }

    /** `applyFeedToUpdater`: the channel first, since its setter turns downgrades on. */
    method ApplyFeed(feed: Feed)
      modifies this
      ensures View() == Pointed(old(View()), feed)
    {
      SetChannel(feed.name);
      allowDowngrade := false;
      isAutoDownload := false;
      isAutoInstall := false;
      SetFeedUrl(feed.isHosted);
    }

    method CheckForUpdates(owner: nat) returns (request: nat)
      modifies this
      ensures View() == Asked(old(View()), owner) && request == InFlight(View())
    {
      if promise.Some? { return promise.value; }
      request := |requests|;
      promise := Some(request);
      requests := requests + [Request(owner, Feed(isHosted, name), allowDowngrade)];
    }

    /** The check settles; or it never does and is forgotten (`discardInFlightCheck`). */
    method Settle(request: nat, answer: Answer)
      modifies this
      ensures View() == Answered(old(View()), request, answer)
    {
      promise := None;
      if answer.Offers? { found := Some(Found(answer.version, request)); }
    }
  }
}
