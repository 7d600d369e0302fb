/** The root shell: dashboard routes get a full-height flex container, all others their children as they are. */
module AppShell {
  import opened Text

  /** `isDashboard`: a raw string-prefix test, not a test on path segments. */
  predicate IsDashboard(path: string) {
    StartsWith(path, "/admin") || StartsWith(path, "/student")
  }

  /** How the children are rendered: inside one container, or unwrapped. */
  datatype Frame = Contained | Unwrapped

  function Shell(path: string): (f: Frame)
    ensures f == Contained <==> IsDashboard(path)
    ensures f == Unwrapped <==> !IsDashboard(path)
  {
    if IsDashboard(path) then Contained else Unwrapped
  }

  /** Anything below a dashboard path is a dashboard path, segment boundary or not. */
  lemma {:induction false} DashboardPrefixClosed(path: string, rest: string)
    requires IsDashboard(path)
    ensures IsDashboard(path + rest)
  {
    if StartsWith(path, "/admin") {
      assert (path + rest)[..6] == path[..6];
    } else {
      assert (path + rest)[..8] == path[..8];
    }
  }

  /** The prefix test lets in routes that only begin like a dashboard path. */
  lemma PrefixAdmitsLookalikes()
    ensures IsDashboard("/administrator")
    ensures IsDashboard("/students")
  {
    assert "/administrator"[..6] == "/admin";
    assert "/students"[..8] == "/student";
  }

  /** Signup, login and the root are not dashboard paths, although one of them contains "/student". */
  lemma PublicRoutesUnwrapped()
    ensures Shell("/signup/student") == Unwrapped
    ensures Shell("/login") == Unwrapped
    ensures Shell("/") == Unwrapped
  {
    assert "/signup/student"[..6] != "/admin" by { assert "/signup/student"[1] == 's'; }
    assert "/signup/student"[..8] != "/student" by { assert "/signup/student"[2] == 'i'; }
    assert "/login"[..6] != "/admin" by { assert "/login"[1] == 'l'; }
  }
}
