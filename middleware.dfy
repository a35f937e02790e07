/** `AuthMiddleware`: the public-path test and the session check it runs before
    every view. */
module Middleware {
  import opened Common
  import opened Text
  import opened Sessions
  import opened Decorators

  /** The prefixes of the paths that need no login. */
  const PublicPaths: seq<string> := ["/", "/login/", "/cadastro/", "/logout/", "/admin/", "/static/", "/media/"]

  /** `any(path.startswith(p) for p in prefixes)`. */
  function AnyPrefix(path: string, prefixes: seq<string>): (b: bool)
    ensures b <==> exists i | 0 <= i < |prefixes| :: StartsWith(path, prefixes[i])
  {
    if prefixes == [] then false
    else StartsWith(path, prefixes[0]) || AnyPrefix(path, prefixes[1..])
  }

  /** `is_public`: the path starts with one of the public prefixes. */
  function IsPublic(path: string): (b: bool)
    ensures b <==> exists i | 0 <= i < |PublicPaths| :: StartsWith(path, PublicPaths[i])
  {
    AnyPrefix(path, PublicPaths)
  }

  /** Since "/" is a public prefix, every path that begins with "/" is public,
      and the login redirect for non-public paths never fires on such a path. */
  lemma EveryRootedPathIsPublic(path: string)
    requires |path| > 0 && path[0] == '/'
    ensures IsPublic(path)
  {
    assert StartsWith(path, PublicPaths[0]);
  }

  /** Only a path that does not begin with "/" is not public. */
  lemma NotPublicMeansUnrooted(path: string)
    ensures !IsPublic(path) <==> path == [] || path[0] != '/'
  {
    if path != [] && path[0] == '/' {
      EveryRootedPathIsPublic(path);
    } else {
      forall i | 0 <= i < |PublicPaths| ensures !StartsWith(path, PublicPaths[i]) {
        assert PublicPaths[i][0] == '/';
      }
    }
  }

  /** What `AuthMiddleware.__call__` does with a request for `path` whose session
      is `ses`, when `users` are the keys of the existing users: the session it
      leaves and whether the view runs. */
  function MiddlewareSpec(users: set<Id>, ses: SessionData, path: string): (res: (SessionData, Gate))
    ensures !IsPublic(path) && !ses.LoggedIn() ==> res == (ses, Deny(ToLogin))
    ensures ses.LoggedIn() && ses.userId.value !in users ==> res == (Anonymous, Deny(ToLogin))
    ensures res.1 == Admit <==> (IsPublic(path) || ses.LoggedIn()) && (ses.LoggedIn() ==> ses.userId.value in users)
    ensures res.1 == Admit ==> res.0 == ses
  {
    if !IsPublic(path) && !ses.LoggedIn() then (ses, Deny(ToLogin))
    else if ses.LoggedIn() && ses.userId.value !in users then (Anonymous, Deny(ToLogin))
    else (ses, Admit)
  }

  /** `AuthMiddleware.__call__` on the session object. */
  method Middleware(users: set<Id>, ses: Session, path: string) returns (g: Gate)
    modifies ses
    ensures (ses.Data(), g) == MiddlewareSpec(users, old(ses.Data()), path)
  {
    var public := AnyPrefix(path, PublicPaths);
    if !public && !(ses.userId.Some? && ses.userId.value != 0) {
      return Deny(ToLogin);
    }
    if ses.userId.Some? && ses.userId.value != 0 {
      if ses.userId.value !in users {
        ses.Flush();
        return Deny(ToLogin);
      }
    }
    return Admit;
  }
}
