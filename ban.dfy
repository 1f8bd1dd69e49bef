/**
 * The `ban` plugin (vcc_py/plugins/ban.py): a set of banned usernames, a recv
 * hook that drops every request from one of them, and the `-ban` / `-unban`
 * commands that add a name to the set and take it out again.
 */
module Ban {
  import opened Wrappers
  import opened Sock

  /** The recv hook against the ban list as it stands when the request arrives. */
  function Filter(banned: set<string>, req: Request): (r: Option<Request>)
    ensures r.None? <==> req.usrname in banned
    ensures r.Some? ==> r.value == req
  {
    if req.usrname in banned then None else Some(req)
  }

  /** The module-level `ban_list`. */
  class BanList {
    var names: set<string>

    constructor ()
      ensures names == {}
    {
      names := {};
    }

    /** `-ban name`: `ban_list.add(name)`. */
    method Ban(name: string)
      modifies this
      ensures names == old(names) + {name}
    {
      names := names + {name};
    }

    /** `-unban name`: `ban_list.discard(name)`, which raises nothing when the name is absent. */
    method Unban(name: string)
      modifies this
      ensures names == old(names) - {name}
    {
      names := names - {name};
    }
  }

  /** Banning makes the hook drop exactly the newly named user's requests in addition to those it dropped before. */
  lemma BanFilters(banned: set<string>, name: string, req: Request)
    ensures Filter(banned + {name}, req).None? <==> (Filter(banned, req).None? || req.usrname == name)
  {
  }

  /** After unbanning, the named user's requests come through unchanged, and nobody else's treatment changes. */
  lemma UnbanFilters(banned: set<string>, name: string, req: Request)
    ensures req.usrname == name ==> Filter(banned - {name}, req) == Some(req)
    ensures req.usrname != name ==> Filter(banned - {name}, req) == Filter(banned, req)
  {
  }

  /** Banning an already-banned name, or unbanning an absent one, leaves the set as it was. */
  lemma BanIdempotent(banned: set<string>, name: string)
    ensures name in banned ==> banned + {name} == banned
    ensures name !in banned ==> banned - {name} == banned
  {
  }
}
