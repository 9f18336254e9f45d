/** The application shell: the connected signer, the current view, and what the page shows
    for them. */
module AppShell {
  import opened Common

  /** What the main area holds once a signer is connected. */
  datatype Content = Nothing | CreatePage | ExplorePage | HomePage

  /** `MainContent`: nothing before the first connection; then the view `'create'` or
      `'explore'`, and the home page for any other view. */
  function MainContent(isInitialized: bool, view: string): (c: Content)
    ensures c == Nothing <==> !isInitialized
    ensures c == CreatePage <==> isInitialized && view == "create"
    ensures c == ExplorePage <==> isInitialized && view == "explore"
    ensures c == HomePage <==> isInitialized && view != "create" && view != "explore"
  {
    if !isInitialized then Nothing
    else if view == "create" then CreatePage
    else if view == "explore" then ExplorePage
    else HomePage
  }

  /** The page: whether the header shows the nav and the create button, whether the hero is
      shown, and the main content (`Nothing` under the hero). */
  datatype Page = Page(nav: bool, createButton: bool, hero: bool, main: Content)

  function Layout(signer: Option<Signer>, isInitialized: bool, view: string): (p: Page)
    ensures p.nav == signer.Some? && p.createButton == signer.Some? && p.hero == signer.None?
    ensures signer.None? ==> p.main == Nothing
    ensures signer.Some? ==> p.main == MainContent(isInitialized, view)
  {
    if signer.None? then Page(false, false, true, Nothing)
    else Page(true, true, false, MainContent(isInitialized, view))
  }

  /** Without a signer no page that needs one is reachable, whatever the view says. */
  lemma CreateNeedsSigner(signer: Option<Signer>, isInitialized: bool, view: string)
    ensures Layout(signer, isInitialized, view).main != Nothing ==> signer.Some?
    ensures Layout(signer, isInitialized, view).main == CreatePage ==> signer.Some? && view == "create"
  {
  }

  /** The application's state. */
  class App {
    var signer: Option<Signer>
    var view: string
    var isInitialized: bool

    /** A connected signer implies the app has been initialised. */
    predicate Valid()
      reads this
    {
      signer.Some? ==> isInitialized
    }

    constructor ()
      ensures signer == None && view == "home" && !isInitialized
      ensures Valid()
    {
      signer, view, isInitialized := None, "home", false;
    }

    /** `handleConnect`, the callback the wallet button calls with a signer or `null`. The
        signer is replaced when it is a different object (`!==`), which also initialises the app;
        disconnecting leaves the app initialised. */
    method HandleConnect(newSigner: Option<Signer>)
      modifies this`signer, this`isInitialized
      ensures signer == newSigner
      ensures isInitialized == (old(isInitialized) || newSigner != old(signer))
      ensures old(Valid()) ==> Valid()
    {
      if newSigner != signer {
        signer := newSigner;
        isInitialized := true;
      }
    }

    /** `handleAuctionCreated`: back to the home view. */
    method HandleAuctionCreated()
      modifies this`view
      ensures view == "home"
    {
      view := "home";
    }

    /** The title and the nav buttons. */
    method SetView(v: string)
      modifies this`view
      ensures view == v
    {
      view := v;
    }

    /** What the page shows now. */
    function Shown(): (p: Page)
      reads this
      requires Valid()
      ensures signer.Some? ==> p.main != Nothing && !p.hero
      ensures signer.None? ==> p.hero && !p.nav && !p.createButton && p.main == Nothing
    {
      Layout(signer, isInitialized, view)
    }
  }

  /** After any connection with a signer the main area is never empty, and a created auction
      brings the home page back. */
  lemma ConnectedShowsContent(s: Signer, isInitialized: bool, view: string)
    requires isInitialized
    ensures Layout(Some(s), isInitialized, view).main != Nothing
    ensures Layout(Some(s), isInitialized, "home").main == HomePage
  {
  }
}
