/**
 * The slice of Redis the pipeline touches: named sets of strings and the SADD
 * command. Whether each SADD reaches the server is not in the program's hands,
 * so the store carries a fault script: the n-th SADD issued fails when the n-th
 * entry is true (an exhausted script means every later SADD succeeds).
 */
module RedisModel {

  datatype StoreView = StoreView(sets: map<string, set<string>>, faults: seq<bool>) {

    /** SMEMBERS: a key that holds no set reads as the empty set. */
    function Members(key: string): set<string> {
      if key in sets then sets[key] else {}
    }

    /** The next SADD fails. */
    predicate NextFails() {
      faults != [] && faults[0]
    }

    /** The store after one SADD has used up its entry of the fault script. */
    function Consume(): StoreView {
      StoreView(sets, if faults == [] then [] else faults[1..])
    }

    /** Adds `members` to the set at `key`; no other set changes. */
    function Insert(key: string, members: set<string>): (r: StoreView)
      ensures r.faults == faults
      ensures r.Members(key) == Members(key) + members
      ensures forall k :: k != key ==> r.Members(k) == Members(k)
    {
      if members == {} then this else this.(sets := sets[key := Members(key) + members])
    }

    /** Two additions to one set are one addition of both. */
    lemma InsertTwice(key: string, a: set<string>, b: set<string>)
      ensures Insert(key, a).Insert(key, b) == Insert(key, a + b)
    {
      if a != {} && b != {} {
        var m := Members(key);
        assert Insert(key, a).Members(key) == m + a;
        assert (m + a) + b == m + (a + b);
        assert sets[key := m + a][key := m + (a + b)] == sets[key := m + (a + b)];
      } else if a == {} {
        assert a + b == b;
      } else {
        assert a + b == a;
      }
    }

    /** SADD key member...: succeeds unless the fault script says otherwise. */
    function SAdd(key: string, members: set<string>): (reply: AddReply)
      requires members != {}
      ensures reply.ok <==> !NextFails()
      ensures reply.store.faults == Consume().faults
      ensures reply.ok ==> reply.store.Members(key) == Members(key) + members
      ensures forall k :: k != key || !reply.ok ==> reply.store.Members(k) == Members(k)
    {
      if NextFails() then AddReply(false, Consume()) else AddReply(true, Consume().Insert(key, members))
    }
  }

  /** The members of a variadic SADD, as a set. */
  function MemberSet(members: seq<string>): (r: set<string>)
    ensures members != [] ==> r != {}
  {
    var r := set m | m in members;
    assert members != [] ==> members[0] in r;
    r
  }

  /** What an SADD reports, and the store afterwards. */
  datatype AddReply = AddReply(ok: bool, store: StoreView)

  /** The client handle. The server's sets are invisible to the program, hence ghost. */
  class RedisClient {
    ghost var sets: map<string, set<string>>
    var faults: seq<bool>

    ghost function View(): StoreView
      reads this
    {
      StoreView(sets, faults)
    }

    /** SADD with the members of a non-empty slice; reports whether it succeeded. */
    method SAdd(key: string, members: seq<string>) returns (ok: bool)
      requires members != []
      modifies this
      ensures AddReply(ok, View()) == old(View()).SAdd(key, MemberSet(members))
    {
      ok := !(faults != [] && faults[0]);
      if faults != [] {
        faults := faults[1..];
      }
      if ok {
        sets := sets[key := (if key in sets then sets[key] else {}) + MemberSet(members)];
      }
    }
  }
}
