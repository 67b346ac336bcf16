/** The provider object: the locked sections that update its client and code
    maps, each proved to do what the step of the same name does in a run. */
module OAuthProvider {
  import opened Outcomes
  import opened Text
  import opened OAuth
  import opened OAuthRuns

  class Provider {
    const cfg: Config
    var clients: Clients
    var codes: Codes
    var file: Option<seq<Client>>   // the client store on disk

    constructor (cfg: Config, file: Option<seq<Client>>)
      ensures this.cfg == cfg && this.file == file
      ensures clients == map[] && codes == map[]
    {
      this.cfg := cfg;
      this.file := file;
      this.clients := map[];
      this.codes := map[];
    }

    // Load the saved clients and add the configured one: a restart.
    method LoadClients() returns (ok: bool)
      requires clients == map[]
      modifies this`clients
      ensures ok == Rebuilt(cfg, file).Some?
      ensures ok ==> clients == Rebuilt(cfg, file).value
    {
      if cfg.hasStore && file.Some? {
        var saved := file.value;
        var i := 0;
        while i < |saved|
          invariant i <= |saved|
          invariant Loaded(saved[..i]) == Some(clients)
        {
          var client := saved[i];
          assert saved[..i + 1][..i] == saved[..i];
          if client.id == "" || client.authMethod != "none" {
            LoadedFailsOn(saved, i + 1);
            return false;
          }
          clients := clients[client.id := client];
          i := i + 1;
        }
        assert saved[..i] == saved;
      }
      clients := clients[cfg.clientID := ConfiguredClient(cfg)];
      ok := true;
    }

    // Write every client but the configured one, in some order.
    method SaveClientsLocked() returns (ghost order: seq<string>)
      modifies this`file
      ensures Enumerates(order, clients.Keys, cfg.clientID)
      ensures (forall k | k in order :: k in clients) && file == Some(Saved(clients, order))
    {
      order := [];
      var saved: seq<Client> := [];
      var keys := clients.Keys - {cfg.clientID};
      while keys != {}
        invariant keys <= clients.Keys - {cfg.clientID}
        invariant NoRepeats(order)
        invariant forall k :: k in order <==> k in clients.Keys - {cfg.clientID} - keys
        invariant saved == Saved(clients, order)
        decreases |keys|
      {
        var k :| k in keys;
        assert k !in order;
        SavedOneMore(clients, order, k);
        keys := keys - {k};
        saved := saved + [clients[k]];
        order := order + [k];
      }
      file := Some(saved);
    }

    // The locked section of a registration; saves says whether the file can be
    // written.
    method RegisterClient(input: Registration, id: string, now: int, saves: bool)
      returns (r: Result<Client, Error>, ghost order: seq<string>)
      modifies this`clients, this`file
      ensures NewClient(cfg, input, id, now).Err? ==>
        r.Err? && r.error == NewClient(cfg, input, id, now).error
        && clients == old(clients) && file == old(file)
      ensures NewClient(cfg, input, id, now).Ok? ==>
        var client := NewClient(cfg, input, id, now).value;
        && clients == old(clients)[client.id := client]
        && (if cfg.hasStore && saves then
              && Enumerates(order, clients.Keys, cfg.clientID)
              && (forall k | k in order :: k in clients) && file == Some(Saved(clients, order))
            else file == old(file))
        && r == if cfg.hasStore && !saves then Err(ServerError) else Ok(client)
    {
      order := [];
      r := NewClient(cfg, input, id, now);
      if r.Err? {
        return;
      }
      clients := clients[r.value.id := r.value];
      if cfg.hasStore {
        if !saves {
          r := Err(ServerError);
          return;
        }
        order := SaveClientsLocked();
      }
    }

    method CleanupCodesLocked(now: int)
      modifies this`codes
      ensures codes == WithoutExpired(old(codes), now)
    {
      var keys := codes.Keys;
      while keys != {}
        invariant keys <= old(codes).Keys
        invariant forall k :: k in codes <==> k in old(codes) && (k in keys || !Expired(old(codes)[k], now))
        invariant forall k | k in codes :: codes[k] == old(codes)[k]
        decreases |keys|
      {
        var k :| k in keys;
        keys := keys - {k};
        if Expired(codes[k], now) {
          codes := codes - {k};
        }
      }
    }

    // The locked section of an approved authorization.
    method MintAuthorizationCode(request: AuthorizationRequest, code: string, now: int)
      modifies this`codes
      ensures codes == Minted(cfg, true, old(codes), request, code, now)
    {
      CleanupCodesLocked(now);
      codes := codes[code := CodeFor(cfg, request, now)];
    }

    // The locked section of a code exchange: look up and delete.
    method TakeAuthorizationCode(value: string) returns (code: Option<Code>)
      modifies this`codes
      ensures code == Lookup(old(codes), value)
      ensures codes == old(codes) - {value}
    {
      code := None;
      if value in codes {
        code := Some(codes[value]);
        codes := codes - {value};
      }
    }
  }

  lemma SavedOneMore(clients: Clients, order: seq<string>, k: string)
    requires k in clients && forall x | x in order :: x in clients
    ensures Saved(clients, order + [k]) == Saved(clients, order) + [clients[k]]
    ensures forall x :: x in order + [k] <==> x in order || x == k
    ensures NoRepeats(order) && k !in order ==> NoRepeats(order + [k])
  {
  }

  // A client that is refused makes the whole file unreadable.
  lemma {:induction false} LoadedFailsOn(file: seq<Client>, n: nat)
    requires n <= |file| && Loaded(file[..n]).None?
    ensures Loaded(file).None?
    decreases |file|
  {
    if n < |file| {
      assert file[..|file| - 1][..n] == file[..n];
      LoadedFailsOn(file[..|file| - 1], n);
    } else {
      assert file[..n] == file;
    }
  }
}
