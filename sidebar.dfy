/**
 * The dashboard sidebar: the portal is read off the first path segment, the
 * portal picks its link list and title, and a link is highlighted when the
 * current path is that link or lies below it (the portal's own root link only
 * on an exact match).
 */
module Sidebar {

  import opened Wrappers
  import opened Types
  import opened Lookup
  import Strings

  datatype Link = Link(href: string, caption: string)

  /** A section page of a portal: `/<slug>/<page>`. */
  function Page(r: UserRole, page: string): string {
    "/" + Slug(r) + "/" + page
  }

  const adminLinks: seq<Link> := [
    Link("/admin", "Overview"), Link(Page(Admin, "students"), "Students"), Link(Page(Admin, "teachers"), "Teachers"),
    Link(Page(Admin, "classes"), "Classes"), Link(Page(Admin, "users"), "System Users")
  ]

  const deanLinks: seq<Link> := [
    Link("/dean", "Academics"), Link(Page(Dean, "students"), "Students"), Link(Page(Dean, "exams"), "Exams & Marks"),
    Link(Page(Dean, "analysis"), "Analysis")
  ]

  const teacherLinks: seq<Link> := [
    Link("/teacher", "My Dashboard"), Link(Page(UserRole.Teacher, "attendance"), "Attendance"),
    Link(Page(UserRole.Teacher, "marks"), "Enter Marks"), Link(Page(UserRole.Teacher, "reports"), "AI Reports")
  ]

  const accountantLinks: seq<Link> := [
    Link("/accountant", "Finance"), Link(Page(Accountant, "invoices"), "Invoices"), Link(Page(Accountant, "payments"), "Payments"),
    Link(Page(Accountant, "balances"), "Fee Balances")
  ]

  /** The path segment of each portal: the role name lower-cased. */
  function Slug(r: UserRole): (s: string)
    ensures s != "" && '/' !in s
  {
    match r
    case Admin => "admin"
    case Dean => "dean"
    case Teacher => "teacher"
    case Accountant => "accountant"
  }

  /** The slug is the role name lower-cased, as the login page builds the landing path. */
  lemma SlugIsLowerRoleName(r: UserRole)
    ensures Slug(r) == Strings.Lower(RoleName(r))
  {
    match r
    case Admin => LowerRoleName("Admin", "admin");
    case Dean => LowerRoleName("Dean", "dean");
    case Teacher => LowerRoleName("Teacher", "teacher");
    case Accountant => LowerRoleName("Accountant", "accountant");
  }

  /** A capitalised word whose tail is already lower case lower-cases to `low`. */
  lemma LowerRoleName(n: string, low: string)
    requires n != [] && low != [] && 'A' <= n[0] <= 'Z' && low[0] == (n[0] as int + 32) as char
    requires n[1..] == low[1..] && forall i :: 0 < i < |n| ==> !('A' <= n[i] <= 'Z')
    ensures Strings.Lower(n) == low
  {
    Strings.LowerCapitalised(n);
    assert low == [low[0]] + low[1..];
  }

  /** The slug a role string names, if any. */
  function ParseSlug(role: string): Option<UserRole> {
    if role == "admin" then Some(Admin)
    else if role == "dean" then Some(Dean)
    else if role == "teacher" then Some(UserRole.Teacher)
    else if role == "accountant" then Some(Accountant)
    else None
  }

  /** `ParseSlug` inverts `Slug` and recognises nothing else. */
  lemma ParseSlugExact(role: string, r: UserRole)
    ensures ParseSlug(role) == Some(r) <==> Slug(r) == role
  {
  }

  /** Each role's own links and title. */
  function LinksOf(r: UserRole): seq<Link> {
    match r
    case Admin => adminLinks
    case Dean => deanLinks
    case Teacher => teacherLinks
    case Accountant => accountantLinks
  }

  function TitleOf(r: UserRole): string {
    match r
    case Admin => "Admin Portal"
    case Dean => "Dean's Portal"
    case Teacher => "Teacher's Portal"
    case Accountant => "Accountant's Portal"
  }

  /** `pathname.split('/')[1] || 'admin'`. */
  function RoleOf(pathname: string): (role: string)
    ensures role != ""
    ensures '/' !in role
  {
    var parts := Strings.Split(pathname, '/');
    if |parts| > 1 then OrElse(parts[1], "admin") else "admin"
  }

  /** A path `/s` reads back the segment `s`. */
  lemma RoleOfSegment(s: string)
    requires s != "" && '/' !in s
    ensures RoleOf("/" + s) == s
  {
    Strings.SplitSingle(s, '/');
    Strings.SplitAfterPrefix("", s, '/');
    assert "" + ['/'] + s == "/" + s;
  }

  /** A path `/s/rest` reads back the segment `s`. */
  lemma RoleOfSegmentBelow(s: string, rest: string)
    requires s != "" && '/' !in s
    ensures RoleOf("/" + s + "/" + rest) == s
  {
    Strings.SplitAfterPrefix(s, rest, '/');
    Strings.SplitAfterPrefix("", s + "/" + rest, '/');
    assert "" + ['/'] + (s + ['/'] + rest) == "/" + s + "/" + rest;
  }

  /** The first segment of a portal path is its slug, whatever lies below it. */
  lemma RoleOfPortalPath(r: UserRole, rest: string)
    ensures RoleOf("/" + Slug(r)) == Slug(r)
    ensures RoleOf("/" + Slug(r) + "/" + rest) == Slug(r)
  {
    RoleOfSegment(Slug(r));
    RoleOfSegmentBelow(Slug(r), rest);
  }

  /** A path that is empty or starts at the root with an empty segment belongs to the admin portal. */
  lemma EmptySegmentIsAdmin(rest: string)
    ensures RoleOf("") == "admin"
    ensures RoleOf("/") == "admin"
    ensures RoleOf("//" + rest) == "admin"
  {
    Strings.SplitSingle("", '/');
    Strings.SplitAfterPrefix("", "", '/');
    assert "" + ['/'] + "" == "/";
    Strings.SplitAfterPrefix("", "/" + rest, '/');
    assert "" + ['/'] + ("/" + rest) == "//" + rest;
    Strings.SplitAfterPrefix("", rest, '/');
    assert "" + ['/'] + rest == "/" + rest;
  }

  /**
   * The `switch (role)`: the four portal slugs pick their own links and title,
   * anything else falls back to the admin portal.
   */
  method SelectMenu(role: string) returns (links: seq<Link>, roleTitle: string)
    ensures ParseSlug(role).Some? ==> links == LinksOf(ParseSlug(role).value) && roleTitle == TitleOf(ParseSlug(role).value)
    ensures ParseSlug(role).None? ==> links == adminLinks && roleTitle == "Admin Portal"
  {
    links := [Link("/dashboard", "Dashboard")];
    roleTitle := "Dashboard";
    if role == "admin" {
      links := adminLinks;
      roleTitle := "Admin Portal";
    } else if role == "dean" {
      links := deanLinks;
      roleTitle := "Dean's Portal";
    } else if role == "teacher" {
      links := teacherLinks;
      roleTitle := "Teacher's Portal";
    } else if role == "accountant" {
      links := accountantLinks;
      roleTitle := "Accountant's Portal";
    } else {
      links := adminLinks;
      roleTitle := "Admin Portal";
    }
  }

  /**
   * The highlight rule of one link: the portal's root link `/<role>` only on
   * that very path, any other link on its own path and every path below it.
   */
  function IsActive(pathname: string, role: string, href: string): (r: bool)
    ensures href == "/" + role ==> (r <==> pathname == href)
    ensures href != "/" + role ==> (r <==> Strings.StartsWith(pathname, href))
  {
    pathname == href || (href != "/" + role && Strings.StartsWith(pathname, href))
  }

  /** A section page lies below its portal's root. */
  lemma PageBelowRoot(r: UserRole, page: string)
    ensures Strings.StartsWith(Page(r, page), "/" + Slug(r) + "/")
  {
    var root := "/" + Slug(r) + "/";
    assert Page(r, page) == root + page;
    assert (root + page)[..|root|] == root;
  }

  /** Each portal's first link is its root, `/` followed by its slug; every other link lies below it. */
  lemma LinksBelowRoot(r: UserRole)
    ensures |LinksOf(r)| >= 4 && LinksOf(r)[0].href == "/" + Slug(r)
    ensures forall i :: 0 < i < |LinksOf(r)| ==> Strings.StartsWith(LinksOf(r)[i].href, "/" + Slug(r) + "/")
  {
    var links := LinksOf(r);
    forall i | 0 < i < |links| ensures Strings.StartsWith(links[i].href, "/" + Slug(r) + "/") {
      match r
      case Admin =>
        PageBelowRoot(r, ["students", "teachers", "classes", "users"][i - 1]);
      case Dean =>
        PageBelowRoot(r, ["students", "exams", "analysis"][i - 1]);
      case Teacher =>
        PageBelowRoot(r, ["attendance", "marks", "reports"][i - 1]);
      case Accountant =>
        PageBelowRoot(r, ["invoices", "payments", "balances"][i - 1]);
    }
  }

  /** Within a portal, its root link is highlighted exactly on the root path itself. */
  lemma RootLinkExactOnly(pathname: string, r: UserRole)
    requires RoleOf(pathname) == Slug(r)
    ensures IsActive(pathname, RoleOf(pathname), "/" + Slug(r)) <==> pathname == "/" + Slug(r)
  {
  }

  /** On a page at or below a section link, that link is highlighted and the portal's root link is not. */
  lemma SectionHighlighted(r: UserRole, i: nat, rest: string)
    requires 0 < i < |LinksOf(r)|
    ensures var path := LinksOf(r)[i].href + rest;
      IsActive(path, RoleOf(path), LinksOf(r)[i].href) && !IsActive(path, RoleOf(path), "/" + Slug(r))
  {
    LinksBelowRoot(r);
    var root := "/" + Slug(r);
    var href := LinksOf(r)[i].href;
    var tail := href[|root| + 1..];
    assert href == root + "/" + tail;
    var path := href + rest;
    assert path == root + "/" + (tail + rest);
    RoleOfPortalPath(r, tail + rest);
    assert href <= path;
    assert |path| > |root|;
  }
}
