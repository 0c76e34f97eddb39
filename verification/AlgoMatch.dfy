/**
  Choice of an algorithm from two name lists (svr-algo.c, cli-algo.c, common-algo.c).
*/
module AlgoMatch {
  import opened Wrappers
  import opened Bytes
  import opened NumberTheory

  type Name = seq<byte>

  /** A row of an algorithm table; rows that are not usable are skipped. */
  datatype Algo = Algo(name: Name, usable: bool)

  predicate Offers(table: seq<Algo>, n: Name) {
    exists i :: 0 <= i < |table| && table[i].usable && table[i].name == n
  }

  /** What a table advertises, in order. */
  function UsableNames(table: seq<Algo>): (r: seq<Name>)
    ensures forall n :: n in r <==> Offers(table, n)
  {
    if table == [] then []
    else
      var rest := UsableNames(table[1..]);
      assert forall n :: Offers(table, n) <==> Offers(table[1..], n) || (table[0].usable && table[0].name == n) by {
        assert table == [table[0]] + table[1..];
      }
      if table[0].usable then [table[0].name] + rest else rest
  }

  const COMMA: byte := 44

  /** buf_put_algolist: the names joined by commas. */
  function Join(names: seq<Name>): seq<byte> {
    if names == [] then []
    else if |names| == 1 then names[0]
    else names[0] + [COMMA] + Join(names[1..])
  }

  /** The server's scan: the client's names in order, each against our table. */
  function ServerPick(remote: seq<Name>, local: seq<Algo>): Option<Name> {
    if remote == [] then None
    else if Offers(local, remote[0]) then Some(remote[0])
    else ServerPick(remote[1..], local)
  }

  /** The client's scan: our rows in order, each against the server's names. */
  function ClientPick(local: seq<Algo>, remote: seq<Name>): Option<Name> {
    if local == [] then None
    else if local[0].usable && local[0].name in remote then Some(local[0].name)
    else ClientPick(local[1..], remote)
  }

  /** Both preferred algorithms coincide. */
  predicate GoodGuess(local: seq<Algo>, remote: seq<Name>) {
    local != [] && remote != [] && local[0].usable && local[0].name == remote[0]
  }

  /** The two scans, nested in opposite orders, choose the same name or fail together. */
  lemma {:induction false} ScansAgree(client: seq<Algo>, server: seq<Algo>)
    ensures ClientPick(client, UsableNames(server)) == ServerPick(UsableNames(client), server)
  {
    if client != [] {
      ScansAgree(client[1..], server);
      if client[0].usable {
        assert UsableNames(client)[1..] == UsableNames(client[1..]);
      }
    }
  }
}
