/** Following redirections inside a download job (tDlJob::RewriteSource in src/dlcon.cc). */
module Redirect {
  import opened Text

  datatype Url = Url(host: string, path: string)

  /** Where a job downloads from: a path below one of its repository's backends, or a URL. */
  datatype Source = Source(backendMode: bool, backend: Option<Url>, remote: Url, redirs: int)

  /** What AppendRequest asks for, and whom. */
  function Requested(s: Source): Url {
    if s.backend.Some? then Url(s.backend.value.host, s.backend.value.path + s.remote.path) else s.remote
  }

  /** Up to the last slash; a lone slash if there is none. */
  function LastSlash(p: string): (r: Option<nat>)
    ensures r.Some? ==> r.value < |p| && p[r.value] == '/' && forall i :: r.value < i < |p| ==> p[i] != '/'
    ensures r.None? ==> '/' !in p
  {
    if p == "" then None else if p[|p| - 1] == '/' then Some(|p| - 1) else LastSlash(p[..|p| - 1])
  }

  function Dir(p: string): string {
    var k := LastSlash(p);
    if k.None? then "/" else p[..k.value + 1]
  }

  predicate IsAbsPath(loc: string) { loc != "" && loc[0] == '/' }

  /** RewriteSource, for a decoded location; `asUrl` is the URL parser. */
  function Rewrite(s: Source, loc: string, asUrl: string -> Option<Url>): (Source, bool) {
    var n := s.(redirs := s.redirs - 1);
    if n.redirs <= 0 || loc == "" then (n, false)
    else if !IsAbsPath(loc) && asUrl(loc).Some? then (Source(false, None, asUrl(loc).value, n.redirs), true)
    else if s.backendMode && s.backend.None? then (n, false)
    else if s.backendMode && IsAbsPath(loc) then
      (n.(backendMode := false, remote := Url(s.backend.value.host, loc)), true)
    else if IsAbsPath(loc) then (n.(remote := s.remote.(path := loc)), true)
    else
      var base := if s.backendMode then Url(s.backend.value.host, s.backend.value.path + s.remote.path) else s.remote;
      (n.(backendMode := false, remote := base.(path := Dir(base.path) + loc)), true)
  }

  /** What a location means, seen from the URL that was asked for. */
  function Resolve(base: Url, loc: string, asUrl: string -> Option<Url>): Url {
    if IsAbsPath(loc) then base.(path := loc)
    else if asUrl(loc).Some? then asUrl(loc).value
    else base.(path := Dir(base.path) + loc)
  }

  predicate IsWhole(loc: string, asUrl: string -> Option<Url>) { !IsAbsPath(loc) && asUrl(loc).Some? }

  /** The request that follows is for what the location means. */
  predicate LeadsThere(s: Source, loc: string, asUrl: string -> Option<Url>) {
    Requested(Rewrite(s, loc, asUrl).0) == Resolve(Requested(s), loc, asUrl)
  }

  lemma {:induction false} LastSlashBehind(a: string, b: string)
    requires '/' in b
    ensures Dir(a + b) == a + Dir(b)
  {
    if b[|b| - 1] == '/' {
      assert (a + b)[..|a| + |b|] == a + b && b[..|b|] == b;
    } else {
      var c := b[..|b| - 1];
      assert '/' in c by { assert b == c + [b[|b| - 1]]; }
      assert (a + b)[..|a + b| - 1] == a + c;
      LastSlashBehind(a, c);
      assert Dir(b) == Dir(c) && Dir(a + b) == Dir(a + c);
    }
  }

  /** A redirection that is followed leads where it points, exactly if it gives a whole URL, or no
      backend is set, or that is the root of its host, or the location is relative and an earlier
      redirection has already taken the job out of backend mode. Otherwise the path of the backend
      is put in front of the new one once more. */
  lemma LeadsThereIff(s: Source, loc: string, asUrl: string -> Option<Url>)
    requires Rewrite(s, loc, asUrl).1
    ensures LeadsThere(s, loc, asUrl) <==>
      IsWhole(loc, asUrl) || s.backend.None? || s.backend.value.path == ""
      || (!s.backendMode && !IsAbsPath(loc) && '/' in s.remote.path)
  {
    if s.backend.Some? && !IsWhole(loc, asUrl) {
      if s.backendMode || IsAbsPath(loc) { InFront(s, loc, asUrl); } else { BehindBackend(s, loc, asUrl); }
    }
  }

  lemma InFront(s: Source, loc: string, asUrl: string -> Option<Url>)
    requires Rewrite(s, loc, asUrl).1 && s.backend.Some? && !IsWhole(loc, asUrl) && (s.backendMode || IsAbsPath(loc))
    ensures LeadsThere(s, loc, asUrl) <==> s.backend.value.path == ""
  {
    hide Dir;
    var b, want := s.backend.value.path, Resolve(Requested(s), loc, asUrl).path;
    assert Requested(Rewrite(s, loc, asUrl).0).path == b + want;
    assert |b + want| == |b| + |want|;
    if b == "" { assert b + want == want; }
  }

  lemma BehindBackend(s: Source, loc: string, asUrl: string -> Option<Url>)
    requires Rewrite(s, loc, asUrl).1 && s.backend.Some? && !IsWhole(loc, asUrl) && !s.backendMode && !IsAbsPath(loc)
    ensures LeadsThere(s, loc, asUrl) <==> s.backend.value.path == "" || '/' in s.remote.path
  {
    var b, r := s.backend.value.path, s.remote.path;
    assert Requested(Rewrite(s, loc, asUrl).0).path == b + (Dir(r) + loc);
    assert Resolve(Requested(s), loc, asUrl).path == Dir(b + r) + loc;
    if '/' in r {
      LastSlashBehind(b, r);
      assert b + (Dir(r) + loc) == b + Dir(r) + loc;
    } else {
      assert Dir(r) == "/";
      if b == "" {
        assert b + r == r && b + (Dir(r) + loc) == Dir(r) + loc;
      } else {
        ShortDir(b, r);
        assert |b + (Dir(r) + loc)| > |Dir(b + r) + loc|;
      }
    }
  }

  lemma ShortDir(b: string, r: string)
    requires '/' !in r && b != ""
    ensures |Dir(b + r)| <= |b|
  {
    assert forall i :: |b| <= i < |b + r| ==> (b + r)[i] == r[i - |b|];
  }

  /** Behind a redirection that was followed, a backend that is still set is out of use, and the
      path in its place has a slash. */
  predicate Followed(s: Source) { s.backend.Some? ==> !s.backendMode && '/' in s.remote.path }

  lemma RewriteFollowed(s: Source, loc: string, asUrl: string -> Option<Url>)
    requires Rewrite(s, loc, asUrl).1
    ensures var t := Rewrite(s, loc, asUrl).0;
      Followed(t) && (t.backend.Some? ==> t.backend == s.backend) && (IsWhole(loc, asUrl) ==> t.backend.None?)
  {
    var t := Rewrite(s, loc, asUrl).0;
    if t.backend.Some? && !IsAbsPath(loc) {
      var base := if s.backendMode then s.backend.value.path + s.remote.path else s.remote.path;
      assert t.remote.path == Dir(base) + loc && '/' in Dir(base) by { DirHasSlash(base); }
    }
  }

  lemma DirHasSlash(p: string)
    ensures '/' in Dir(p)
  {
    var k := LastSlash(p);
    if k.Some? { assert p[..k.value + 1][k.value] == '/'; }
  }

  /** Redirections do not go on for ever. */
  function FollowAll(s: Source, locs: seq<string>, asUrl: string -> Option<Url>): (Source, bool)
    decreases |locs|
  {
    if locs == [] then (s, true)
    else
      var (t, ok) := Rewrite(s, locs[0], asUrl);
      if ok then FollowAll(t, locs[1..], asUrl) else (t, false)
  }

  lemma {:induction false} FollowsFew(s: Source, locs: seq<string>, asUrl: string -> Option<Url>)
    requires FollowAll(s, locs, asUrl).1 && locs != []
    ensures |locs| < s.redirs
    decreases |locs|
  {
    var t := Rewrite(s, locs[0], asUrl).0;
    assert t.redirs == s.redirs - 1 > 0;
    if |locs| > 1 { FollowsFew(t, locs[1..], asUrl); }
  }

  /** Every redirection of a chain leads where it points. */
  predicate AllLead(s: Source, locs: seq<string>, asUrl: string -> Option<Url>)
    decreases |locs|
  {
    locs == [] || (LeadsThere(s, locs[0], asUrl) && AllLead(Rewrite(s, locs[0], asUrl).0, locs[1..], asUrl))
  }

  /** A job starts in backend mode exactly if it has a backend. Then its first redirection decides
      for the whole chain, however long it is. */
  lemma ChainLeadsIff(s: Source, locs: seq<string>, asUrl: string -> Option<Url>)
    requires s.backendMode <==> s.backend.Some?
    requires FollowAll(s, locs, asUrl).1 && locs != []
    ensures AllLead(s, locs, asUrl) <==>
      IsWhole(locs[0], asUrl) || s.backend.None? || s.backend.value.path == ""
  {
    hide Rewrite, LeadsThere, IsWhole;
    LeadsThereIff(s, locs[0], asUrl);
    RewriteFollowed(s, locs[0], asUrl);
    if IsWhole(locs[0], asUrl) || s.backend.None? || s.backend.value.path == "" {
      HarmlessLeads(Rewrite(s, locs[0], asUrl).0, locs[1..], asUrl);
    }
  }

  lemma {:induction false} HarmlessLeads(s: Source, locs: seq<string>, asUrl: string -> Option<Url>)
    requires FollowAll(s, locs, asUrl).1 && (s.backend.Some? ==> s.backend.value.path == "")
    ensures AllLead(s, locs, asUrl)
    decreases |locs|
  {
    hide Rewrite, LeadsThere, IsWhole;
    if locs != [] {
      LeadsThereIff(s, locs[0], asUrl);
      RewriteFollowed(s, locs[0], asUrl);
      HarmlessLeads(Rewrite(s, locs[0], asUrl).0, locs[1..], asUrl);
    }
  }

  /** Further down the chain, a redirection that is relative or gives a whole URL leads where it
      points, whatever the earlier ones did. */
  lemma {:induction false} LaterLeadIff(s: Source, locs: seq<string>, loc: string, asUrl: string -> Option<Url>)
    requires locs != [] && FollowAll(s, locs, asUrl).1
    requires Rewrite(FollowAll(s, locs, asUrl).0, loc, asUrl).1
    ensures var t := FollowAll(s, locs, asUrl).0;
      Followed(t) &&
      (LeadsThere(t, loc, asUrl) <==> !IsAbsPath(loc) || t.backend.None? || t.backend.value.path == "")
    decreases |locs|
  {
    hide Rewrite, LeadsThere;
    var m := Rewrite(s, locs[0], asUrl).0;
    RewriteFollowed(s, locs[0], asUrl);
    if |locs| > 1 { LaterLeadIff(m, locs[1..], loc, asUrl); } else { LeadsThereIff(m, loc, asUrl); }
  }

  /** A host that redirects inside itself: the path of the backend comes in twice. */
  lemma BackendTwice(asUrl: string -> Option<Url>)
    ensures var s := Source(true, Some(Url("h", "/b/")), Url("", "x"), 8);
      && Rewrite(s, "/y", asUrl).1
      && Resolve(Requested(s), "/y", asUrl) == Url("h", "/y")
      && Requested(Rewrite(s, "/y", asUrl).0) == Url("h", "/b//y")
  {
    assert "/b/" + "/y" == "/b//y";
  }

  class DownloadSource {
    var backendMode: bool
    var curBackend: Option<Url>
    var remoteUri: Url
    var redirRemaining: int

    function State(): Source
      reads this
    {
      Source(backendMode, curBackend, remoteUri, redirRemaining)
    }

    constructor (s: Source)
      ensures State() == s
    {
      backendMode, curBackend, remoteUri, redirRemaining := s.backendMode, s.backend, s.remote, s.redirs;
    }

    method RewriteSource(loc: string, asUrl: string -> Option<Url>) returns (ok: bool)
      modifies this
      ensures (State(), ok) == Rewrite(old(State()), loc, asUrl)
    {
      hide Dir, LastSlash;
      redirRemaining := redirRemaining - 1;
      if redirRemaining <= 0 || loc == "" { return false; }
      var absPath := IsAbsPath(loc);
      if !absPath && asUrl(loc).Some? {
        backendMode, curBackend := false, None;
        remoteUri := asUrl(loc).value;
        return true;
      }
      if backendMode && curBackend.None? { return false; }
      if backendMode {
        backendMode := false;
        if absPath {
          remoteUri := curBackend.value;
          remoteUri := remoteUri.(path := loc);
          return true;
        }
        var sfx := remoteUri.path;
        remoteUri := curBackend.value;
        remoteUri := remoteUri.(path := remoteUri.path + sfx);
      } else if absPath {
        remoteUri := remoteUri.(path := loc);
        return true;
      }
      StripToDir();
      remoteUri := remoteUri.(path := remoteUri.path + loc);
      return true;
    }

    method StripToDir()
      modifies `remoteUri
      ensures remoteUri == Url(old(remoteUri.host), Dir(old(remoteUri.path)))
    {
      var spos := LastSlash(remoteUri.path);
      if spos.None? {
        remoteUri := remoteUri.(path := "/");
      } else {
        remoteUri := remoteUri.(path := remoteUri.path[..spos.value + 1]);
      }
    }
  }
}
