/**
 * The session state of `MediAIAssistant` (`st.session_state`): the current page and
 * the first-aid-kit flag, how `__init__` fills them in, how the navigation buttons and
 * the kit button change them, and which parts of the screen `run` renders for them.
 *
 * Streamlit keeps `st.session_state` across reruns of the script, so it is an object
 * whose fields the methods below update in place. A button press followed by
 * `st.rerun()` is one call of `Navigate` or `ToggleFirstAidKit` followed by a fresh
 * render pass, `Run`.
 */
module Session {
  import opened Wrappers

  const Home: string := "home"
  const Emergency: string := "emergency"
  const Medicine: string := "medicine"
  const RemediesPage: string := "remedies"

  /** The four page names `run` knows how to render. */
  predicate IsPage(p: string) {
    p == Home || p == Emergency || p == Medicine || p == RemediesPage
  }

  /**
   * The buttons that set the page: the four sidebar entries of `render_navigation` and
   * the three cards of `render_homepage`.
   */
  datatype NavButton =
    | SidebarHome | SidebarEmergency | SidebarMedicine | SidebarRemedies
    | CardEmergency | CardMedicine | CardRemedies

  /** The page a navigation button selects. */
  function Target(b: NavButton): (p: string)
    ensures IsPage(p)
    ensures b.CardEmergency? || b.CardMedicine? || b.CardRemedies? ==> p != Home
  {
    match b
    case SidebarHome => Home
    case SidebarEmergency | CardEmergency => Emergency
    case SidebarMedicine | CardMedicine => Medicine
    case SidebarRemedies | CardRemedies => RemediesPage
  }

  /** Every page can be reached from the sidebar, and each home card leads where its sidebar twin does. */
  lemma SidebarReachesEveryPage(p: string)
    requires IsPage(p)
    ensures exists b: NavButton :: !b.CardEmergency? && !b.CardMedicine? && !b.CardRemedies? && Target(b) == p
    ensures Target(CardEmergency) == Target(SidebarEmergency)
    ensures Target(CardMedicine) == Target(SidebarMedicine)
    ensures Target(CardRemedies) == Target(SidebarRemedies)
  {
    if p == Home {
      assert Target(SidebarHome) == p;
    } else if p == Emergency {
      assert Target(SidebarEmergency) == p;
    } else if p == Medicine {
      assert Target(SidebarMedicine) == p;
    } else {
      assert Target(SidebarRemedies) == p;
    }
  }

  /** The parts of one render pass, in the order they are drawn. */
  datatype View =
    | Navigation
    | HomeBody | EmergencyBody | MedicineBody | RemediesBody
    | KitToggleIcon
    | KitPanel(open: bool)
    | Footer

  predicate IsBody(v: View) {
    v.HomeBody? || v.EmergencyBody? || v.MedicineBody? || v.RemediesBody?
  }

  /** The body that belongs to page `p`. */
  function BodyFor(p: string): View
    requires IsPage(p)
  {
    if p == Home then HomeBody
    else if p == Emergency then EmergencyBody
    else if p == Medicine then MedicineBody
    else RemediesBody
  }

  /**
   * What `run` draws for a page name and a kit flag: the navigation, the page body
   * chosen by the `if`/`elif` chain (nothing for an unknown name), the kit's toggle
   * icon only while the kit is closed, the kit panel, and the footer.
   */
  function Screen(page: string, open: bool): seq<View> {
    [Navigation]
      + (if IsPage(page) then [BodyFor(page)] else [])
      + (if open then [] else [KitToggleIcon])
      + [KitPanel(open), Footer]
  }

  /** The number of page bodies among `vs`. */
  function CountBodies(vs: seq<View>): nat {
    if vs == [] then 0 else (if IsBody(vs[0]) then 1 else 0) + CountBodies(vs[1..])
  }

  lemma {:induction false} CountBodiesAppend(a: seq<View>, b: seq<View>)
    ensures CountBodies(a + b) == CountBodies(a) + CountBodies(b)
  {
    if a != [] {
      assert (a + b)[0] == a[0] && (a + b)[1..] == a[1..] + b;
      CountBodiesAppend(a[1..], b);
    } else {
      assert a + b == b;
    }
  }

  /**
   * A render pass starts with the navigation and ends with the kit panel, reflecting
   * the flag, and the footer; it draws exactly one page body, the one for the page,
   * when the page name is known and none otherwise; and the toggle icon shows exactly
   * when the kit is closed.
   */
  lemma ScreenSpec(page: string, open: bool)
    ensures var vs := Screen(page, open);
      |vs| >= 3 && vs[0] == Navigation && vs[|vs| - 2] == KitPanel(open) && vs[|vs| - 1] == Footer
    ensures CountBodies(Screen(page, open)) == (if IsPage(page) then 1 else 0)
    ensures IsPage(page) ==> Screen(page, open)[1] == BodyFor(page)
    ensures KitToggleIcon in Screen(page, open) <==> !open
  {
    var body := if IsPage(page) then [BodyFor(page)] else [];
    var icon := if open then [] else [KitToggleIcon];
    CountBodiesAppend([Navigation], body);
    CountBodiesAppend([Navigation] + body, icon);
    CountBodiesAppend([Navigation] + body + icon, [KitPanel(open), Footer]);
    assert CountBodies([KitPanel(open), Footer]) == 0 by {
      assert [KitPanel(open), Footer][1..] == [Footer];
      assert CountBodies([Footer]) == 0 by {
        assert [Footer][1..] == [];
      }
    }
    if !open {
      assert Screen(page, open)[|body| + 1] == KitToggleIcon;
    }
  }

  /** `st.session_state`, as far as this application uses it. */
  class SessionState {
    var page: Option<string>
    var showFirstAidKit: Option<bool>

    /** A new browser session holds no keys. */
    constructor()
      ensures page == None && showFirstAidKit == None
    {
      page := None;
      showFirstAidKit := None;
    }

    /** Both keys are present. */
    predicate Initialised()
      reads this
    {
      page.Some? && showFirstAidKit.Some?
    }

    /**
     * `MediAIAssistant.__init__`: each key that is absent gets its default (`'home'`,
     * `False`); a key that is present keeps its value.
     */
    method Initialise()
      modifies this
      ensures Initialised()
      ensures page == (if old(page).Some? then old(page) else Some(Home))
      ensures showFirstAidKit == (if old(showFirstAidKit).Some? then old(showFirstAidKit) else Some(false))
    {
      if page.None? {
        page := Some(Home);
      }
      if showFirstAidKit.None? {
        showFirstAidKit := Some(false);
      }
    }

    /**
     * A navigation button: the page becomes the button's target and the kit flag is
     * untouched. The home cards are drawn, and so can be pressed, only on the home page.
     */
    method Navigate(b: NavButton)
      requires b.CardEmergency? || b.CardMedicine? || b.CardRemedies? ==> page == Some(Home)
      modifies this
      ensures page == Some(Target(b))
      ensures showFirstAidKit == old(showFirstAidKit)
    {
      page := Some(Target(b));
    }

    /** The sidebar kit button: the flag is negated and the page is untouched. */
    method ToggleFirstAidKit()
      requires showFirstAidKit.Some?
      modifies this
      ensures showFirstAidKit == Some(!old(showFirstAidKit).value)
      ensures page == old(page)
    {
      showFirstAidKit := Some(!showFirstAidKit.value);
    }

    /** `run`: one render pass over the current state, which it does not change. */
    method Run() returns (views: seq<View>)
      requires Initialised()
      ensures views == Screen(page.value, showFirstAidKit.value)
    {
      views := [Navigation];
      var p := page.value;
      if p == Home {
        views := views + [HomeBody];
      } else if p == Emergency {
        views := views + [EmergencyBody];
      } else if p == Medicine {
        views := views + [MedicineBody];
      } else if p == RemediesPage {
        views := views + [RemediesBody];
      }
      if !showFirstAidKit.value {
        views := views + [KitToggleIcon];
      }
      views := views + [KitPanel(showFirstAidKit.value), Footer];
    }
  }

  /** Running `__init__` again, as every rerun does, changes nothing. */
  method InitialiseTwice(s: SessionState)
    modifies s
    ensures s.Initialised()
    ensures s.page == (if old(s.page).Some? then old(s.page) else Some(Home))
    ensures s.showFirstAidKit == (if old(s.showFirstAidKit).Some? then old(s.showFirstAidKit) else Some(false))
  {
    s.Initialise();
    ghost var page, open := s.page, s.showFirstAidKit;
    s.Initialise();
    assert s.page == page && s.showFirstAidKit == open;
  }

  /** Pressing the kit button twice restores the flag, and the page never moves. */
  method ToggleTwice(s: SessionState)
    requires s.Initialised()
    modifies s
    ensures s.page == old(s.page) && s.showFirstAidKit == old(s.showFirstAidKit)
  {
    s.ToggleFirstAidKit();
    s.ToggleFirstAidKit();
  }

  /** The first render of a new session: the home page with the kit closed. */
  method FirstScreen() returns (views: seq<View>)
    ensures views == [Navigation, HomeBody, KitToggleIcon, KitPanel(false), Footer]
  {
    var s := new SessionState();
    s.Initialise();
    views := s.Run();
  }

  /**
   * A navigation click and the rerun it triggers: `__init__` leaves the state alone,
   * and the new pass draws the target page's body with the kit as it was.
   */
  method NavigateAndRerun(s: SessionState, b: NavButton) returns (views: seq<View>)
    requires s.Initialised()
    requires b.CardEmergency? || b.CardMedicine? || b.CardRemedies? ==> s.page == Some(Home)
    modifies s
    ensures s.page == Some(Target(b)) && s.showFirstAidKit == old(s.showFirstAidKit)
    ensures views == Screen(Target(b), old(s.showFirstAidKit).value)
    ensures CountBodies(views) == 1 && views[1] == BodyFor(Target(b))
  {
    s.Navigate(b);
    s.Initialise();
    views := s.Run();
    ScreenSpec(Target(b), s.showFirstAidKit.value);
  }

  /**
   * A kit click and the rerun it triggers: the same page body is drawn, and the toggle
   * icon appears exactly when the kit was open before the click.
   */
  method ToggleAndRerun(s: SessionState) returns (views: seq<View>)
    requires s.Initialised()
    modifies s
    ensures s.page == old(s.page) && s.showFirstAidKit == Some(!old(s.showFirstAidKit).value)
    ensures views == Screen(old(s.page).value, !old(s.showFirstAidKit).value)
    ensures KitToggleIcon in views <==> old(s.showFirstAidKit).value
  {
    s.ToggleFirstAidKit();
    s.Initialise();
    views := s.Run();
    ScreenSpec(s.page.value, s.showFirstAidKit.value);
  }
}
