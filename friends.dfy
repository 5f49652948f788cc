/** The values of the split-a-bill widget: friend records, the selection,
    the split arithmetic, the expense clamp, the construction of a new friend
    and the balance message, with the lemmas that relate them. */
module Friends {

  datatype Option<+T> = None | Some(value: T)

  /** A friend record. A positive balance is what the friend owes the user,
      a negative one what the user owes the friend. */
  datatype Friend = Friend(id: string, name: string, image: string, balance: int)

  /** Who paid the whole bill: the user or the selected friend. */
  datatype Payer = You | TheFriend

  /** One line of the balance message shown under a friend's name. */
  datatype Status = YouOwe(amount: nat) | OwesYou(amount: nat) | Even

  /** The avatar URL the add-friend form starts from and is reset to. */
  const DefaultImage: string := "https://i.pravatar.cc/48"

  function Abs(x: int): nat {
    if x < 0 then -x else x
  }

  // ---------------------------------------------------------------------------
  // The registry

  predicate HasId(friends: seq<Friend>, id: string) {
    exists i :: 0 <= i < |friends| && friends[i].id == id
  }

  /** The invariant the id generator is trusted to keep. */
  predicate UniqueIds(friends: seq<Friend>) {
    forall i, j :: 0 <= i < j < |friends| ==> friends[i].id != friends[j].id
  }

  /** Number of entries carrying `id`. */
  function CountId(friends: seq<Friend>, id: string): nat {
    if friends == [] then 0
    else (if friends[0].id == id then 1 else 0) + CountId(friends[1..], id)
  }

  /** Sum of all balances. */
  function TotalBalance(friends: seq<Friend>): int {
    if friends == [] then 0 else friends[0].balance + TotalBalance(friends[1..])
  }

  /** The registry after a split: `delta` is added to the balance of every
      entry whose id is `id`; order, ids, names, images and every other entry
      stay as they were. */
  function ApplySplit(friends: seq<Friend>, id: string, delta: int): (r: seq<Friend>)
    ensures |r| == |friends|
    ensures forall i :: 0 <= i < |friends| && friends[i].id == id ==>
              r[i] == friends[i].(balance := friends[i].balance + delta)
    ensures forall i :: 0 <= i < |friends| && friends[i].id != id ==> r[i] == friends[i]
  {
    if friends == [] then []
    else
      var f := friends[0];
      [if f.id == id then f.(balance := f.balance + delta) else f]
      + ApplySplit(friends[1..], id, delta)
  }

  /** A split for an id nobody carries leaves the registry as it is. */
  lemma ApplySplitUnknownId(friends: seq<Friend>, id: string, delta: int)
    requires !HasId(friends, id)
    ensures ApplySplit(friends, id, delta) == friends
  {
  }

  /** A split changes no id, so the ids stay unique and the same ids are present. */
  lemma ApplySplitKeepsIds(friends: seq<Friend>, id: string, delta: int)
    ensures forall k :: HasId(ApplySplit(friends, id, delta), k) <==> HasId(friends, k)
    ensures UniqueIds(friends) ==> UniqueIds(ApplySplit(friends, id, delta))
  {
  }

  /** The balances summed over the registry move by `delta` once per matching entry. */
  lemma {:induction false} ApplySplitTotal(friends: seq<Friend>, id: string, delta: int)
    ensures TotalBalance(ApplySplit(friends, id, delta))
            == TotalBalance(friends) + delta * CountId(friends, id)
  {
    if friends != [] {
      var f := friends[0];
      var head := if f.id == id then f.(balance := f.balance + delta) else f;
      var rest := ApplySplit(friends[1..], id, delta);
      assert ApplySplit(friends, id, delta) == [head] + rest;
      assert ([head] + rest)[1..] == rest;
      ApplySplitTotal(friends[1..], id, delta);
    }
  }

  /** With unique ids an id occurs once if it occurs at all. */
  lemma {:induction false} CountIdUnique(friends: seq<Friend>, id: string)
    requires UniqueIds(friends)
    ensures CountId(friends, id) == if HasId(friends, id) then 1 else 0
  {
    if friends != [] {
      var rest := friends[1..];
      assert UniqueIds(rest) by {
        forall i, j | 0 <= i < j < |rest| ensures rest[i].id != rest[j].id {
          assert rest[i] == friends[i + 1] && rest[j] == friends[j + 1];
        }
      }
      CountIdUnique(rest, id);
      if friends[0].id == id {
        forall j | 0 <= j < |rest| ensures rest[j].id != id {
          assert rest[j] == friends[j + 1];
        }
      } else {
        if HasId(friends, id) {
          var j :| 0 <= j < |friends| && friends[j].id == id;
          assert rest[j - 1].id == id;
        }
        if HasId(rest, id) {
          var j :| 0 <= j < |rest| && rest[j].id == id;
          assert friends[j + 1].id == id;
        }
      }
    }
  }

  /** With unique ids, a split for a present id moves the sum of balances by exactly `delta`. */
  lemma ApplySplitTotalUnique(friends: seq<Friend>, id: string, delta: int)
    requires UniqueIds(friends) && HasId(friends, id)
    ensures TotalBalance(ApplySplit(friends, id, delta)) == TotalBalance(friends) + delta
  {
    ApplySplitTotal(friends, id, delta);
    CountIdUnique(friends, id);
  }

  /** Appending a record with a fresh id keeps the ids unique. */
  lemma AppendKeepsUniqueIds(friends: seq<Friend>, friend: Friend)
    requires UniqueIds(friends) && !HasId(friends, friend.id)
    ensures UniqueIds(friends + [friend])
    ensures forall k :: HasId(friends + [friend], k) <==> HasId(friends, k) || k == friend.id
  {
    var r := friends + [friend];
    assert r[|friends|] == friend;
    forall k | HasId(r, k) ensures HasId(friends, k) || k == friend.id {
      var i :| 0 <= i < |r| && r[i].id == k;
      if i < |friends| { assert friends[i].id == k; }
    }
    forall k | HasId(friends, k) ensures HasId(r, k) {
      var i :| 0 <= i < |friends| && friends[i].id == k;
      assert r[i].id == k;
    }
  }

  // ---------------------------------------------------------------------------
  // The selection

  /** A list entry is highlighted when its id is the selected friend's id. */
  predicate IsActive(active: Option<Friend>, friend: Friend) {
    active.Some? && active.value.id == friend.id
  }

  /** Clicking "select"/"close" on `friend`: the selection becomes that friend,
      or none when that friend (by id) was already selected. */
  function Toggle(cur: Option<Friend>, friend: Friend): (r: Option<Friend>)
    ensures r == None || r == Some(friend)
    ensures IsActive(r, friend) <==> !IsActive(cur, friend)
  {
    if IsActive(cur, friend) then None else Some(friend)
  }

  /** The highlight flag of each list entry, in list order. */
  function ActiveMarks(friends: seq<Friend>, active: Option<Friend>): (r: seq<bool>)
    ensures |r| == |friends|
    ensures forall i :: 0 <= i < |friends| ==>
              (r[i] <==> active.Some? && friends[i].id == active.value.id)
  {
    if friends == [] then []
    else [IsActive(active, friends[0])] + ActiveMarks(friends[1..], active)
  }

  /** With unique ids at most one entry is highlighted, and exactly one when
      the selected friend is in the registry. */
  lemma ActiveMarksAtMostOne(friends: seq<Friend>, active: Option<Friend>)
    requires UniqueIds(friends)
    ensures forall i, j :: 0 <= i < j < |friends| ==>
              !(ActiveMarks(friends, active)[i] && ActiveMarks(friends, active)[j])
    ensures active.Some? && HasId(friends, active.value.id) ==>
              exists i :: 0 <= i < |friends| && ActiveMarks(friends, active)[i]
  {
    if active.Some? && HasId(friends, active.value.id) {
      var i :| 0 <= i < |friends| && friends[i].id == active.value.id;
      assert ActiveMarks(friends, active)[i];
    }
  }

  // ---------------------------------------------------------------------------
  // The split form

  /** What the user paid: the whole bill when the user paid it, nothing otherwise. */
  function UserPaid(bill: int, payer: Payer): int {
    if payer == You then bill else 0
  }

  /** What the friend paid. */
  function FriendPaid(bill: int, payer: Payer): int {
    bill - UserPaid(bill, payer)
  }

  /** The user's own share of the bill. The one editable expense field belongs
      to the payer, so `entered` is the user's share when the user paid and the
      friend's share when the friend paid. */
  function UserShare(bill: int, entered: int, payer: Payer): int {
    if payer == You then entered else bill - entered
  }

  /** The friend's share of the bill. */
  function FriendShare(bill: int, entered: int, payer: Payer): int {
    bill - UserShare(bill, entered, payer)
  }

  /** The change to the friend's balance after a split: what the user paid
      beyond the user's own share, which is what the friend consumed beyond
      what the friend paid. */
  function SplitDelta(bill: int, entered: int, payer: Payer): (d: int)
    ensures d == UserPaid(bill, payer) - UserShare(bill, entered, payer)
    ensures d == FriendShare(bill, entered, payer) - FriendPaid(bill, payer)
  {
    if payer == You then bill - entered else -(bill - entered)
  }

  /** For the same entries the two payers give exactly opposite deltas. */
  lemma SplitDeltaOpposite(bill: int, entered: int)
    ensures SplitDelta(bill, entered, You) == -SplitDelta(bill, entered, TheFriend)
  {
  }

  /** With an entry between 0 and the bill, the friend's balance grows when
      the user paid and shrinks when the friend paid. */
  lemma SplitDeltaSign(bill: int, entered: int)
    requires 0 <= entered <= bill
    ensures SplitDelta(bill, entered, You) >= 0
    ensures SplitDelta(bill, entered, TheFriend) <= 0
  {
  }

  /** A split is submitted only when both the bill and the expense are set
      (an empty field counts as 0). */
  predicate SplitAllowed(bill: int, entered: int) {
    bill != 0 && entered != 0
  }

  /** An edit of the expense field to `entered`: accepted unless it exceeds
      the bill at that moment, in which case the field keeps `current`. */
  function ClampExpense(current: int, entered: int, bill: int): (r: int)
    ensures r == entered || r == current
    ensures r <= bill || r == current
    ensures entered <= bill ==> r == entered
    ensures current <= bill ==> r <= bill
  {
    if entered > bill then current else entered
  }

  // ---------------------------------------------------------------------------
  // The add-friend form

  /** The add-friend form submits only when both fields are filled. */
  predicate AddAllowed(name: string, image: string) {
    name != "" && image != ""
  }

  /** The record built for a new friend: the generated id, the name, the image
      URL with `?=<id>` appended, and a zero balance. */
  function NewFriend(id: string, name: string, image: string): (f: Friend)
    ensures f.id == id && f.name == name && f.balance == 0
    ensures |f.image| == |image| + 2 + |id|
    ensures f.image[..|image|] == image && f.image[|image|..] == "?=" + id
  {
    Friend(id, name, image + "?=" + id, 0)
  }

  /** Friends created from the same image template with different ids get
      different images. */
  lemma NewFriendImagesDistinct(id1: string, id2: string, name1: string, name2: string, image: string)
    requires NewFriend(id1, name1, image).image == NewFriend(id2, name2, image).image
    ensures id1 == id2
  {
    var s := NewFriend(id1, name1, image).image;
    assert s[|image| + 2..] == id1;
    assert s[|image| + 2..] == id2;
  }

  // ---------------------------------------------------------------------------
  // The balance message

  /** The lines shown under a friend: the source tests `< 0`, `> 0` and `== 0`
      one after the other; exactly one of them applies. */
  function StatusLines(friend: Friend): (r: seq<Status>)
    ensures |r| == 1
    ensures r[0].YouOwe? <==> friend.balance < 0
    ensures r[0].OwesYou? <==> friend.balance > 0
    ensures r[0].Even? <==> friend.balance == 0
    ensures !r[0].Even? ==> r[0].amount == Abs(friend.balance)
  {
    (if friend.balance < 0 then [YouOwe(-friend.balance)] else [])
    + (if friend.balance > 0 then [OwesYou(friend.balance)] else [])
    + (if friend.balance == 0 then [Even] else [])
  }
}
