/** The private store: nodes, tokens, private data and tombstones (server/gridwitness_server/db.py). */
module Registry {
  import opened Basics

  datatype Tier = Anon | Region | DataShare

  datatype Node = Node(created: int, deviceType: string, firmware: Option<string>, cadenceMs: Option<int>,
                       locTier: Tier, locRef: Option<string>, cellId: Option<string>,
                       channels: set<Channel>, producer: Option<string>, deleted: bool)

  datatype Private = Private(postcode: Option<string>, rawRegion: Option<string>, contributor: Option<string>)

  /** The four tables, by node id. */
  datatype Db = Db(nodes: map<NodeId, Node>, tokens: map<NodeId, string>, private: map<NodeId, Private>,
                   tombstones: set<NodeId>)

  const EmptyDb := Db(map[], map[], map[], {})

  /** A new tier with the location derived from it. */
  datatype Placement = Placement(tier: Tier, locRef: Option<string>, cellId: Option<string>, postcode: Option<string>)

  /** A primary-key conflict in any of the three inserts raises, and nothing is committed. */
  function Create(db: Db, id: NodeId, token: string, node: Node, private: Private): Option<Db> {
    if id in db.nodes || id in db.tokens || id in db.private then None
    else Some(db.(nodes := db.nodes[id := node], tokens := db.tokens[id := token],
                  private := db.private[id := private]))
  }

  /** UPDATE statements: they match no row of an unknown id, and do not look at deleted_utc. */
  function UpdateConsent(db: Db, id: NodeId, channels: Option<set<Channel>>, placement: Option<Placement>): Db {
    var db1 :=
      if channels.Some? && id in db.nodes
      then db.(nodes := db.nodes[id := db.nodes[id].(channels := channels.value)])
      else db;
    match placement
    case None => db1
    case Some(p) =>
      var nodes := if id in db1.nodes
                   then db1.nodes[id := db1.nodes[id].(locTier := p.tier, locRef := p.locRef, cellId := p.cellId)]
                   else db1.nodes;
      var private := if id in db1.private then db1.private[id := db1.private[id].(postcode := p.postcode)]
                     else db1.private;
      db1.(nodes := nodes, private := private)
  }

  function Delete(db: Db, id: NodeId): (Db, bool) {
    if id !in db.nodes || db.nodes[id].deleted then (db, false)
    else
      (Db(db.nodes[id := db.nodes[id].(deleted := true)], db.tokens - {id}, db.private - {id},
          db.tombstones + {id}), true)
  }

  function GetNode(db: Db, id: NodeId): Option<Node> {
    if id in db.nodes && !db.nodes[id].deleted then Some(db.nodes[id]) else None
  }

  function GetTokenHash(db: Db, id: NodeId): Option<string> {
    if id in db.tokens then Some(db.tokens[id]) else None
  }

  function GetContributorRef(db: Db, id: NodeId): Option<string> {
    if id in db.private then db.private[id].contributor else None
  }

  function NodesByContributor(db: Db, account: string): set<NodeId> {
    set id | id in db.nodes && id in db.private && db.private[id].contributor == Some(account) && !db.nodes[id].deleted
  }

  predicate Live(db: Db, id: NodeId) {
    GetNode(db, id).Some?
  }

  /**
   * What the tables always agree on: exactly the live nodes have a token and private data, exactly the
   * erased ones have a tombstone, and a postcode is held exactly for the live nodes on data share.
   */
  ghost predicate ConsistentAt(db: Db, id: NodeId) {
    && (id in db.tokens <==> Live(db, id))
    && (id in db.private <==> Live(db, id))
    && (id in db.tombstones <==> id in db.nodes && db.nodes[id].deleted)
    && (Live(db, id) ==> (db.private[id].postcode.Some? <==> db.nodes[id].locTier.DataShare?))
  }

  ghost predicate Consistent(db: Db) {
    forall id :: ConsistentAt(db, id)
  }

  /** All that the tables hold of one id. */
  datatype TableRow = TableRow(node: Option<Node>, token: Option<string>, private: Option<Private>, tombstone: bool)

  function Row(db: Db, id: NodeId): TableRow {
    TableRow(if id in db.nodes then Some(db.nodes[id]) else None, if id in db.tokens then Some(db.tokens[id]) else None,
             if id in db.private then Some(db.private[id]) else None, id in db.tombstones)
  }

  lemma CreateKeepsConsistent(db: Db, id: NodeId, token: string, node: Node, private: Private)
    requires Consistent(db) && !node.deleted && (private.postcode.Some? <==> node.locTier.DataShare?)
    ensures var made := Create(db, id, token, node, private);
            && (made.Some? <==> id !in db.nodes)
            && (made.Some? ==> Consistent(made.value) && GetNode(made.value, id) == Some(node)
                                && Row(made.value, id) == TableRow(Some(node), Some(token), Some(private), false)
                                && forall i :: i != id ==> Row(made.value, i) == Row(db, i))
  {
    var made := Create(db, id, token, node, private);
    assert ConsistentAt(db, id);
    if made.Some? {
      forall i ensures ConsistentAt(made.value, i) {
        assert ConsistentAt(db, i);
      }
    }
  }

  /** An update, to whichever node and however late, touches one node only and cannot bring one back. */
  lemma UpdateAt(db: Db, id: NodeId, channels: Option<set<Channel>>, placement: Option<Placement>, i: NodeId)
    ensures var db' := UpdateConsent(db, id, channels, placement);
            && (Live(db', i) <==> Live(db, i))
            && (i in db'.nodes <==> i in db.nodes) && (i in db'.private <==> i in db.private)
            && (i in db.nodes ==> db'.nodes[i].deleted == db.nodes[i].deleted)
            && db'.tombstones == db.tombstones && db'.tokens == db.tokens
            && GetContributorRef(db', i) == GetContributorRef(db, i)
            && (i != id ==> GetNode(db', i) == GetNode(db, i) && Row(db', i) == Row(db, i))
  {
  }

  /**
   * What an update does to its own node: a given channel set is the whole consent from then on, a given
   * placement is the new tier, place, cell and stored postcode, and what is not given stays.
   */
  lemma UpdateReplacesWhatIsGiven(db: Db, id: NodeId, channels: Option<set<Channel>>, placement: Option<Placement>)
    requires id in db.nodes
    ensures var was, row := db.nodes[id], Row(UpdateConsent(db, id, channels, placement), id);
            && row.node.Some? && row.token == Row(db, id).token && row.tombstone == Row(db, id).tombstone
            && var now := row.node.value;
               && now.channels == (if channels.Some? then channels.value else was.channels)
               && now.locTier == (if placement.Some? then placement.value.tier else was.locTier)
               && now.locRef == (if placement.Some? then placement.value.locRef else was.locRef)
               && now.cellId == (if placement.Some? then placement.value.cellId else was.cellId)
               && now.created == was.created && now.deviceType == was.deviceType && now.firmware == was.firmware
               && now.cadenceMs == was.cadenceMs && now.producer == was.producer && now.deleted == was.deleted
    ensures id in db.private ==>
              var was, row := db.private[id], Row(UpdateConsent(db, id, channels, placement), id);
              && row.private.Some?
              && row.private.value.postcode == (if placement.Some? then placement.value.postcode else was.postcode)
              && row.private.value.rawRegion == was.rawRegion && row.private.value.contributor == was.contributor
  {
  }

  lemma UpdateKeepsConsistent(db: Db, id: NodeId, channels: Option<set<Channel>>, placement: Option<Placement>)
    requires Consistent(db)
    requires placement.Some? ==> (placement.value.postcode.Some? <==> placement.value.tier.DataShare?)
    ensures Consistent(UpdateConsent(db, id, channels, placement))
  {
    forall i ensures ConsistentAt(UpdateConsent(db, id, channels, placement), i) {
      assert ConsistentAt(db, i);
      UpdateAt(db, id, channels, placement, i);
    }
  }

  lemma DeleteKeepsConsistent(db: Db, id: NodeId)
    requires Consistent(db)
    ensures var (db', ok) := Delete(db, id);
            && Consistent(db') && (ok <==> Live(db, id))
            && (forall i :: Live(db', i) <==> Live(db, i) && i != id)
            && (ok ==> id in db'.tombstones) && db.tombstones <= db'.tombstones
            && (forall i :: i != id || !ok ==> Row(db', i) == Row(db, i))
            && (ok ==> Row(db', id) == TableRow(Some(db.nodes[id].(deleted := true)), None, None, true))
  {
    var db' := Delete(db, id).0;
    forall i ensures ConsistentAt(db', i) {
      assert ConsistentAt(db, i);
    }
  }

  /** The same tables as SQLite holds them, changed in place under one lock. */
  class Database {
    var nodes: map<NodeId, Node>
    var tokens: map<NodeId, string>
    var private: map<NodeId, Private>
    var tombstones: set<NodeId>

    ghost function State(): Db
      reads this
    {
      Db(nodes, tokens, private, tombstones)
    }

    constructor ()
      ensures State() == EmptyDb
    {
      nodes, tokens, private, tombstones := map[], map[], map[], {};
    }

    method CreateNode(id: NodeId, token: string, node: Node, private: Private) returns (ok: bool)
      modifies this
      ensures var made := Create(old(State()), id, token, node, private);
              ok == made.Some? && State() == if made.Some? then made.value else old(State())
    {
      if id in nodes || id in tokens || id in this.private {
        return false;
      }
      nodes := nodes[id := node];
      tokens := tokens[id := token];
      this.private := this.private[id := private];
      ok := true;
    }

    method ChangeConsent(id: NodeId, channels: Option<set<Channel>>, placement: Option<Placement>)
      modifies this
      ensures State() == UpdateConsent(old(State()), id, channels, placement)
    {
      if channels.Some? {
        if id in nodes {
          nodes := nodes[id := nodes[id].(channels := channels.value)];
        }
      }
      if placement.Some? {
        var Placement(tier, locRef, cellId, postcode) := placement.value;
        if id in nodes {
          nodes := nodes[id := nodes[id].(locTier := tier, locRef := locRef, cellId := cellId)];
        }
        if id in private {
          private := private[id := private[id].(postcode := postcode)];
        }
      }
    }

    method DeleteNode(id: NodeId) returns (deleted: bool)
      modifies this
      ensures (State(), deleted) == Delete(old(State()), id)
    {
      if id !in nodes || nodes[id].deleted {
        return false;
      }
      nodes := nodes[id := nodes[id].(deleted := true)];
      tokens := tokens - {id};
      private := private - {id};
      tombstones := tombstones + {id};
      deleted := true;
    }
  }
}
