/** `ChatRoom` of src/services/chat/chatRoom.ts: the module-level registry of rooms by name and
    each room's member set. A `Set` keeps insertion order, so members are a duplicate-free
    sequence of user references. Sending is recorded rather than performed. */
module ChatRooms {
  import opened Wrappers
  import opened JsValue

  /** The part of a chat user the room reads: its `name`, null until the user has joined. */
  class ChatUser {
    var name: Option<string>

    constructor (name: Option<string>)
      ensures this.name == name
    {
      this.name := name;
    }
  }

  predicate NoDuplicates<T(==)>(s: seq<T>) {
    forall i, j :: 0 <= i < j < |s| ==> s[i] != s[j]
  }

  /** `Set.prototype.add`: a new element goes last; an element already present stays put. */
  function Joined<T(==)>(s: seq<T>, x: T): (r: seq<T>)
    ensures x in r && forall i :: 0 <= i < |s| ==> s[i] in r
    ensures forall i :: 0 <= i < |r| ==> r[i] in s || r[i] == x
    ensures x in s ==> r == s
    ensures x !in s ==> |r| == |s| + 1 && r[..|s|] == s && r[|s|] == x
    ensures NoDuplicates(s) ==> NoDuplicates(r)
  {
    if x in s then s else s + [x]
  }

  /** `Set.prototype.delete`: the element is taken out and the others keep their order; the
      list shrinks exactly when the element was in it. */
  function Removed<T(==)>(s: seq<T>, x: T): (r: seq<T>)
    ensures |r| <= |s|
    ensures |r| < |s| <==> x in s
    decreases |s|
  {
    if s == [] then []
    else if s[0] == x then Removed(s[1..], x)
    else [s[0]] + Removed(s[1..], x)
  }

  /** After removal the element is gone, everyone else is still there and nobody new appears. */
  lemma {:induction false} RemovedMembers<T>(s: seq<T>, x: T)
    ensures x !in Removed(s, x)
    ensures forall i :: 0 <= i < |Removed(s, x)| ==> Removed(s, x)[i] in s
    ensures forall i :: 0 <= i < |s| && s[i] != x ==> s[i] in Removed(s, x)
    decreases |s|
  {
    if s != [] {
      RemovedMembers(s[1..], x);
      var r, t := Removed(s, x), Removed(s[1..], x);
      forall i | 0 <= i < |r| ensures r[i] in s {
        if s[0] != x && i == 0 {
        } else {
          var j := if s[0] == x then i else i - 1;
          assert r[i] == t[j];
          assert t[j] in s[1..];
        }
      }
      forall i | 0 <= i < |s| && s[i] != x ensures s[i] in r {
        if i > 0 {
          assert s[i] == s[1..][i - 1];
        }
      }
    }
  }

  /** Removing a non-member changes nothing. */
  lemma {:induction false} RemovedNonMember<T>(s: seq<T>, x: T)
    requires x !in s
    ensures Removed(s, x) == s
    decreases |s|
  {
    if s != [] {
      assert x !in s[1..];
      RemovedNonMember(s[1..], x);
      assert [s[0]] + s[1..] == s;
    }
  }

  /** Removing from a concatenation removes from each part. */
  lemma {:induction false} RemovedAppend<T>(a: seq<T>, b: seq<T>, x: T)
    ensures Removed(a + b, x) == Removed(a, x) + Removed(b, x)
    decreases |a|
  {
    if a != [] {
      var ab, ra, rb := a + b, Removed(a[1..], x), Removed(b, x);
      assert ab[0] == a[0] && ab[1..] == a[1..] + b;
      RemovedAppend(a[1..], b, x);
      if a[0] != x {
        assert [a[0]] + (ra + rb) == ([a[0]] + ra) + rb;
      }
    } else {
      assert a + b == b;
    }
  }

  /** In a duplicate-free sequence, the element at position k occurs nowhere else. */
  lemma OccursOnlyAt<T>(s: seq<T>, k: nat)
    requires NoDuplicates(s) && k < |s|
    ensures s[k] !in s[..k] && s[k] !in s[k + 1..]
  {
    var a, b := s[..k], s[k + 1..];
    forall i | 0 <= i < |a| ensures a[i] != s[k] {
      assert a[i] == s[i];
    }
    forall i | 0 <= i < |b| ensures b[i] != s[k] {
      assert b[i] == s[k + 1 + i];
    }
  }

  /** In a duplicate-free sequence, removing the element at position k splices it out. */
  lemma RemovedAt<T>(s: seq<T>, x: T, k: nat)
    requires NoDuplicates(s) && k < |s| && s[k] == x
    ensures Removed(s, x) == s[..k] + s[k + 1..]
  {
    var a, b := s[..k], s[k + 1..];
    var ax := a + [x];
    OccursOnlyAt(s, k);
    assert s == ax + b;
    RemovedAppend(ax, b, x);
    RemovedAppend(a, [x], x);
    assert Removed([x], x) == [] by {
      assert [x][1..] == [];
    }
    RemovedNonMember(a, x);
    RemovedNonMember(b, x);
    assert a + [] == a;
  }

  /** Removing keeps a sequence duplicate-free. */
  lemma RemovedKeepsNoDuplicates<T>(s: seq<T>, x: T)
    requires NoDuplicates(s)
    ensures NoDuplicates(Removed(s, x))
  {
    if x in s {
      var k :| 0 <= k < |s| && s[k] == x;
      RemovedAt(s, x, k);
    } else {
      RemovedNonMember(s, x);
    }
  }

  /** Joining twice is joining once. */
  lemma JoinIdempotent<T>(s: seq<T>, x: T)
    ensures Joined(Joined(s, x), x) == Joined(s, x)
  {
  }

  /** Leaving right after joining as a newcomer restores the member list. */
  lemma LeaveUndoesJoin<T>(s: seq<T>, x: T)
    requires x !in s && NoDuplicates(s)
    ensures Removed(Joined(s, x), x) == s
  {
    var r := Joined(s, x);
    RemovedAt(r, x, |s|);
    assert r[..|s|] == s;
  }

  /** What `getMember` returns: `undefined` for an empty room, the member, or an Error. */
  datatype MemberLookup = NoMembers | Member(user: ChatUser) | NotFound(error: string)

  class ChatRoom {
    const name: string
    /** `members`, in insertion order. */
    var members: seq<ChatUser>

    ghost predicate Valid()
      reads this
    {
      NoDuplicates(members)
    }

    /** A new room has the given name and no members. */
    constructor (roomName: string)
      ensures Valid() && name == roomName && members == []
    {
      name := roomName;
      members := [];
    }

    method Join(chatUser: ChatUser)
      requires Valid()
      modifies this
      ensures Valid() && members == Joined(old(members), chatUser)
    {
      if chatUser !in members {
        members := members + [chatUser];
      }
    }

    method Leave(chatUser: ChatUser)
      requires Valid()
      modifies this
      ensures Valid() && members == Removed(old(members), chatUser)
    {
      RemovedKeepsNoDuplicates(members, chatUser);
      members := Removed(members, chatUser);
    }

    /** `broadcast`: one send of `data` to each member, in insertion order. */
    method Broadcast(data: Value) returns (sends: seq<(ChatUser, Value)>)
      ensures |sends| == |members|
      ensures forall i :: 0 <= i < |members| ==> sends[i] == (members[i], data)
    {
      sends := [];
      for i := 0 to |members|
        invariant |sends| == i
        invariant forall k :: 0 <= k < i ==> sends[k] == (members[k], data)
      {
        sends := sends + [(members[i], data)];
      }
    }

    /** `getMember` as written: the loop returns during its first iteration, so only the first
        member is compared. */
    method GetMember(memberName: string) returns (r: MemberLookup)
      ensures r == FirstMemberOnly(members, memberName)
    {
      for i := 0 to |members|
        invariant i == 0
      {
        if members[i].name == Some(memberName) {
          return Member(members[i]);
        }
        return NotFound(NoMemberError(memberName));
      }
      return NoMembers;
    }

    /** `getMember` as evidently intended: the first member with the name, and the Error only
        when no member has it. */
    method FindMember(memberName: string) returns (r: MemberLookup)
      ensures r == AnyMemberNamed(members, memberName)
    {
      for i := 0 to |members|
        invariant forall j :: 0 <= j < i ==> members[j].name != Some(memberName)
      {
        if members[i].name == Some(memberName) {
          return Member(members[i]);
        }
      }
      return NotFound(NoMemberError(memberName));
    }
  }

  function NoMemberError(memberName: string): string {
    "No chat User with the Identifier: " + memberName
  }

  /** What `getMember` computes: undefined for no members, else a verdict on the first member. */
  function FirstMemberOnly(members: seq<ChatUser>, memberName: string): (r: MemberLookup)
    reads members
    ensures r.NoMembers? <==> members == []
    ensures r.Member? ==> r.user == members[0] && members[0].name == Some(memberName)
    ensures r.NotFound? ==> members != [] && members[0].name != Some(memberName)
                            && r.error == NoMemberError(memberName)
  {
    if members == [] then NoMembers
    else if members[0].name == Some(memberName) then Member(members[0])
    else NotFound(NoMemberError(memberName))
  }

  /** Position of the first member with the name. */
  function FirstNamed(members: seq<ChatUser>, memberName: string): (k: Option<nat>)
    reads members
    ensures k.None? <==> forall i :: 0 <= i < |members| ==> members[i].name != Some(memberName)
    ensures k.Some? ==> k.value < |members| && members[k.value].name == Some(memberName)
                        && forall i :: 0 <= i < k.value ==> members[i].name != Some(memberName)
    decreases |members|
  {
    if members == [] then None
    else if members[0].name == Some(memberName) then Some(0)
    else match FirstNamed(members[1..], memberName)
      case None => None
      case Some(k) => Some(k + 1)
  }

  /** The intended lookup: the first member with the name, or the Error when there is none. */
  function AnyMemberNamed(members: seq<ChatUser>, memberName: string): (r: MemberLookup)
    reads members
    ensures !r.NoMembers?
    ensures r.NotFound? <==> forall i :: 0 <= i < |members| ==> members[i].name != Some(memberName)
    ensures r.NotFound? ==> r.error == NoMemberError(memberName)
    ensures r.Member? ==> exists k :: 0 <= k < |members| && r.user == members[k] && members[k].name == Some(memberName)
                                      && forall i :: 0 <= i < k ==> members[i].name != Some(memberName)
  {
    match FirstNamed(members, memberName)
    case None => NotFound(NoMemberError(memberName))
    case Some(k) => Member(members[k])
  }

  /** The two lookups differ: with a non-matching first member and a matching second one,
      `getMember` reports the Error although the second member has the name. */
  lemma GetMemberMissesLaterMember(first: ChatUser, second: ChatUser, memberName: string)
    requires first.name != Some(memberName) && second.name == Some(memberName)
    ensures FirstMemberOnly([first, second], memberName) == NotFound(NoMemberError(memberName))
    ensures AnyMemberNamed([first, second], memberName) == Member(second)
  {
    assert [first, second][1..] == [second];
    assert FirstNamed([second], memberName) == Some(0);
    assert FirstNamed([first, second], memberName) == Some(1);
  }

  /** Whenever the first member has the name, or the room is non-empty and nobody has it, the
      two lookups agree. */
  lemma LookupsAgreeOnFirstMember(members: seq<ChatUser>, memberName: string)
    requires members != []
    requires members[0].name == Some(memberName)
             || forall i :: 0 <= i < |members| ==> members[i].name != Some(memberName)
    ensures FirstMemberOnly(members, memberName) == AnyMemberNamed(members, memberName)
  {
  }

  /** The module-level `rooms` map. */
  class RoomRegistry {
    var rooms: map<string, ChatRoom>

    /** Every room is stored under its own name. */
    ghost predicate Valid()
      reads this
    {
      forall n :: n in rooms ==> rooms[n].name == n
    }

    constructor ()
      ensures Valid() && rooms == map[]
    {
      rooms := map[];
    }

    /** `ChatRoom.get`: the room stored under the name, created empty on its first request. */
    method Get(roomName: string) returns (room: ChatRoom)
      requires Valid()
      modifies this
      ensures Valid() && room.name == roomName
      ensures roomName in old(rooms) ==> room == old(rooms)[roomName] && rooms == old(rooms)
      ensures roomName !in old(rooms) ==>
                fresh(room) && room.members == [] && rooms == old(rooms)[roomName := room]
    {
      if roomName !in rooms {
        var created := new ChatRoom(roomName);
        rooms := rooms[roomName := created];
      }
      room := rooms[roomName];
    }
  }
}
