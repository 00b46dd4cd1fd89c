/** The application shell: the role-filtered menu and the academic-context
    switcher with its audit entry. */
module Layout {
  import opened Common
  import opened Types
  import opened Constants
  import Audit

  datatype MenuItem = MenuItem(title: string, path: string, roles: seq<Role>)

  const MENU_ITEMS: seq<MenuItem> := [
    MenuItem("Dashboard", "/dashboard", ALL_ROLES),
    MenuItem("Students", "/students", [Admin, Principal, FormMaster]),
    MenuItem("Results", "/results", [Admin, Teacher, FormMaster, Principal]),
    MenuItem("PIN Manager", "/pin-manager", [Admin]),
    MenuItem("Audit Logs", "/audit-logs", [Admin])
  ]

  /** The entries whose roles include the user's, in menu order. */
  function FilteredMenu(role: Role): seq<MenuItem> {
    Filter(MENU_ITEMS, VisibleTo(role))
  }

  function VisibleTo(role: Role): MenuItem -> bool {
    (m: MenuItem) => role in m.roles
  }

  function Labels(menu: seq<MenuItem>): (ls: seq<string>)
    ensures |ls| == |menu| && forall i :: 0 <= i < |menu| ==> ls[i] == menu[i].title
  {
    seq(|menu|, i requires 0 <= i < |menu| => menu[i].title)
  }

  /** Entry `i` of the menu when `role` may see it, nothing otherwise. */
  function MenuSlot(role: Role, i: nat): seq<MenuItem>
    requires i < |MENU_ITEMS|
  {
    if role in MENU_ITEMS[i].roles then [MENU_ITEMS[i]] else []
  }

  /** The filtered menu entry by entry. */
  lemma MenuUnfolds(role: Role)
    ensures FilteredMenu(role) == MenuSlot(role, 0) + MenuSlot(role, 1) + MenuSlot(role, 2) + MenuSlot(role, 3) + MenuSlot(role, 4)
  {
    FilterFive(MENU_ITEMS, VisibleTo(role));
  }

  /** The menu each role sees, in full and in order: all five entries for
      administrators, no administrative pages for principals and form
      masters, Dashboard and Results for teachers, and only the dashboard
      for parents. */
  lemma MenuPerRole(role: Role)
    ensures role == Admin ==> FilteredMenu(role) == MENU_ITEMS
    ensures role in [Principal, FormMaster] ==> FilteredMenu(role) == MENU_ITEMS[..3]
    ensures role == Teacher ==> FilteredMenu(role) == [MENU_ITEMS[0], MENU_ITEMS[2]]
    ensures role == Parent ==> FilteredMenu(role) == [MENU_ITEMS[0]]
  {
    MenuUnfolds(role);
  }

  /** The same menus by their titles. */
  lemma MenuTitles(role: Role)
    ensures role == Admin ==> Labels(FilteredMenu(role)) == ["Dashboard", "Students", "Results", "PIN Manager", "Audit Logs"]
    ensures role in [Principal, FormMaster] ==> Labels(FilteredMenu(role)) == ["Dashboard", "Students", "Results"]
    ensures role == Teacher ==> Labels(FilteredMenu(role)) == ["Dashboard", "Results"]
    ensures role == Parent ==> Labels(FilteredMenu(role)) == ["Dashboard"]
  {
    MenuPerRole(role);
  }

  /** The dashboard is in every menu, and the administrative pages only in
      the administrator's. */
  lemma DashboardForAllAdminPagesForAdmin(role: Role)
    ensures MENU_ITEMS[0] in FilteredMenu(role)
    ensures MENU_ITEMS[3] in FilteredMenu(role) <==> role == Admin
    ensures MENU_ITEMS[4] in FilteredMenu(role) <==> role == Admin
  {
    assert role in ALL_ROLES;
  }

  /** Only administrators, principals and form masters may open the
      session/term switcher; for everyone else its button is disabled. */
  predicate CanSwitchContext(role: Role) {
    role in [Admin, Principal, FormMaster]
  }

  /** Teachers and parents are exactly the roles locked out of the switcher. */
  lemma SwitchRoles(role: Role)
    ensures CanSwitchContext(role) <==> role != Teacher && role != Parent
  {
  }

  /** The session and term the shell currently shows. */
  datatype Context = Context(session: AcademicSession, term: Term)

  /** The starting context: the active session and term of the fixtures. */
  function InitialContext(): (c: Context)
    ensures c.session.active && c.term.active
    ensures c.session in MOCK_SESSIONS && c.term in MOCK_TERMS
  {
    var s := FindIndex(MOCK_SESSIONS, (s: AcademicSession) => s.active, 0);
    var t := FindIndex(MOCK_TERMS, (t: Term) => t.active, 0);
    assert MOCK_SESSIONS[0].active && MOCK_TERMS[1].active;
    Context(MOCK_SESSIONS[s.GetOr(0)], MOCK_TERMS[t.GetOr(0)])
  }

  function TermLabel(n: TermName): string {
    match n
    case First => "First"
    case Second => "Second"
    case Third => "Third"
  }

  /** The header's caption for a context: "<session> - <term> Term". */
  function ContextLabel(c: Context): string {
    c.session.name + " - " + TermLabel(c.term.name) + " Term"
  }

  /** Some fixture session has this id. */
  predicate KnownSession(id: string) {
    exists i :: 0 <= i < |MOCK_SESSIONS| && MOCK_SESSIONS[i].id == id
  }

  /** Some fixture term has this id. */
  predicate KnownTerm(id: string) {
    exists i :: 0 <= i < |MOCK_TERMS| && MOCK_TERMS[i].id == id
  }

  /** `handleSwitch`: when both ids name a fixture session and term, the
      context becomes them and one audit entry, captioned as the header
      shows the new context, records the switch; otherwise nothing changes.
      The handler itself does not look at the role. */
  function HandleSwitch(ctx: Context, user: Audit.Actor, sessionId: string, termId: string,
                        svc: Audit.AuditService, logId: string, timestamp: string): (r: (Context, Audit.AuditService))
    ensures !KnownSession(sessionId) || !KnownTerm(termId) ==> r == (ctx, svc)
    ensures KnownSession(sessionId) && KnownTerm(termId) ==>
              && r.0.session in MOCK_SESSIONS && r.0.session.id == sessionId
              && r.0.term in MOCK_TERMS && r.0.term.id == termId
              && r.1 == Audit.Log(svc, Audit.LogRequest(user.id, user.role, "Academic Context Switch",
                                                        ContextLabel(r.0), logId, timestamp))
  {
    var s := FindIndex(MOCK_SESSIONS, (x: AcademicSession) => x.id == sessionId, 0);
    var t := FindIndex(MOCK_TERMS, (x: Term) => x.id == termId, 0);
    if s.Some? && t.Some? then
      var next := Context(MOCK_SESSIONS[s.value], MOCK_TERMS[t.value]);
      (next, Audit.Log(svc, Audit.LogRequest(user.id, user.role, "Academic Context Switch",
                                              ContextLabel(next), logId, timestamp)))
    else (ctx, svc)
  }

  /** What the header holds: the context it shows and whether the switcher's
      dropdown is open (it starts closed). */
  datatype Shell = Shell(ctx: Context, open: bool)

  /** A user action on the switcher. Choosing an option carries the id and
      clock reading its audit entry would get. */
  datatype SwitcherEvent =
    | ClickSwitcher
    | Dismiss
    | ChooseSession(sessionId: string, logId: string, timestamp: string)
    | ChooseTerm(termId: string, logId: string, timestamp: string)

  /** One action: the button toggles the dropdown only for roles that may
      switch; the backdrop closes it; the options exist only while it is open,
      a session option keeps the current term and a term option the current
      session, and a successful switch closes the dropdown. */
  function Step(sh: Shell, svc: Audit.AuditService, user: Audit.Actor, e: SwitcherEvent): (r: (Shell, Audit.AuditService))
    ensures !sh.open && !CanSwitchContext(user.role) ==> r == (sh, svc)
    ensures !sh.open && (e.ChooseSession? || e.ChooseTerm?) ==> r == (sh, svc)
    ensures r.0.ctx != sh.ctx || r.1 != svc ==> sh.open && (e.ChooseSession? || e.ChooseTerm?)
  {
    match e
    case ClickSwitcher =>
      if CanSwitchContext(user.role) then (sh.(open := !sh.open), svc) else (sh, svc)
    case Dismiss => (sh.(open := false), svc)
    case ChooseSession(id, logId, timestamp) =>
      if !sh.open then (sh, svc)
      else
        var r := HandleSwitch(sh.ctx, user, id, sh.ctx.term.id, svc, logId, timestamp);
        (Shell(r.0, !(KnownSession(id) && KnownTerm(sh.ctx.term.id))), r.1)
    case ChooseTerm(id, logId, timestamp) =>
      if !sh.open then (sh, svc)
      else
        var r := HandleSwitch(sh.ctx, user, sh.ctx.session.id, id, svc, logId, timestamp);
        (Shell(r.0, !(KnownSession(sh.ctx.session.id) && KnownTerm(id))), r.1)
  }

  /** The actions one after another, first to last. */
  function Run(sh: Shell, svc: Audit.AuditService, user: Audit.Actor, es: seq<SwitcherEvent>): (Shell, Audit.AuditService)
    decreases |es|
  {
    if es == [] then (sh, svc)
    else
      var next := Step(sh, svc, user, es[0]);
      Run(next.0, next.1, user, es[1..])
  }

  /** A teacher or parent, starting from the closed switcher, can never change
      the academic context or add an audit entry, whatever they click. */
  lemma {:induction false} LockedOutRoleNeverSwitches(sh: Shell, svc: Audit.AuditService, user: Audit.Actor, es: seq<SwitcherEvent>)
    requires !CanSwitchContext(user.role) && !sh.open
    ensures Run(sh, svc, user, es) == (sh, svc)
    decreases |es|
  {
    if es != [] {
      assert Step(sh, svc, user, es[0]) == (sh, svc);
      LockedOutRoleNeverSwitches(sh, svc, user, es[1..]);
    }
  }

  /** A role that may switch opens the switcher and picks a fixture term: the
      term changes, the session stays, the dropdown closes and one entry
      captioned with the new context is logged. */
  lemma PermittedRoleSwitchesTerm(sh: Shell, svc: Audit.AuditService, user: Audit.Actor,
                                  termId: string, logId: string, timestamp: string)
    requires CanSwitchContext(user.role) && !sh.open
    requires sh.ctx.session in MOCK_SESSIONS && KnownTerm(termId)
    ensures var r := Run(sh, svc, user, [ClickSwitcher, ChooseTerm(termId, logId, timestamp)]);
            && r.0.ctx.session == sh.ctx.session && r.0.ctx.term.id == termId && !r.0.open
            && |r.1.logs| == |svc.logs| + 1 && r.1.logs[1..] == svc.logs
            && r.1.logs[0].userId == user.id && r.1.logs[0].userRole == user.role
            && r.1.logs[0].affectedRecord == ContextLabel(r.0.ctx)
  {
    var shown := Shell(sh.ctx, true);
    assert Step(sh, svc, user, ClickSwitcher) == (shown, svc);
    var i :| 0 <= i < |MOCK_SESSIONS| && MOCK_SESSIONS[i] == sh.ctx.session;
    assert KnownSession(sh.ctx.session.id);
    var r := HandleSwitch(sh.ctx, user, sh.ctx.session.id, termId, svc, logId, timestamp);
    var j :| 0 <= j < |MOCK_SESSIONS| && MOCK_SESSIONS[j] == r.0.session;
    assert MOCK_SESSIONS[0].id != MOCK_SESSIONS[1].id;
    assert i == j;
    var choose := ChooseTerm(termId, logId, timestamp);
    var es := [ClickSwitcher, choose];
    assert es[1..] == [choose] && [choose][1..] == [];
    assert Step(shown, svc, user, choose) == (Shell(r.0, false), r.1);
    assert Run(sh, svc, user, es) == Run(shown, svc, user, [choose]) == (Shell(r.0, false), r.1);
  }

  /** Switching to session s2 and term t3 moves the context and logs
      "2024/2025 - Third Term"; an unknown term id changes nothing. */
  lemma SwitchExamples(ctx: Context, user: Audit.Actor, svc: Audit.AuditService)
    ensures var r := HandleSwitch(ctx, user, "s2", "t3", svc, "l1", "now");
            r.0.session.name == "2024/2025" && r.0.term.name == Third
            && r.1.logs[0].affectedRecord == "2024/2025 - Third Term"
    ensures HandleSwitch(ctx, user, "s2", "t9", svc, "l1", "now") == (ctx, svc)
  {
    assert MOCK_SESSIONS[1].id == "s2" && MOCK_SESSIONS[0].id != "s2";
    assert MOCK_TERMS[2].id == "t3" && MOCK_TERMS[0].id != "t3" && MOCK_TERMS[1].id != "t3";
    assert forall i :: 0 <= i < |MOCK_TERMS| ==> MOCK_TERMS[i].id != "t9";
  }
}
