/**
 * The network page (components/NetworkPage.tsx): the list of directory
 * entries, the loading flag, the follow and unfollow handlers that flip one
 * entry's `isFollowing` after a successful request, and the rule that picks
 * each entry's button. Request outcomes are parameters; every handler ends
 * with the loading flag cleared.
 */
module NetworkPage {
  import opened Wrappers
  import opened Records
  import UsersRoute

  type Entry = UsersRoute.DirectoryEntry

  /** `prevUsers.map(u => u._id === id ? { ...u, isFollowing: value } : u)`. */
  function MarkFollowing(users: seq<Entry>, id: string, value: bool): (r: seq<Entry>)
    ensures |r| == |users|
    ensures forall i :: 0 <= i < |users| && users[i].id != id ==> r[i] == users[i]
    ensures forall i :: 0 <= i < |users| && users[i].id == id ==> r[i] == users[i].(isFollowing := value)
  {
    seq(|users|, i requires 0 <= i < |users| => if users[i].id == id then users[i].(isFollowing := value) else users[i])
  }

  /** Marking the same entry twice is marking it once. */
  lemma MarkFollowingIdempotent(users: seq<Entry>, id: string, value: bool)
    ensures MarkFollowing(MarkFollowing(users, id, value), id, value) == MarkFollowing(users, id, value)
  {
  }

  /** A follow followed by an unfollow of the same entry leaves it not followed and the rest untouched. */
  lemma FollowThenUnfollow(users: seq<Entry>, id: string)
    ensures MarkFollowing(MarkFollowing(users, id, true), id, false) == MarkFollowing(users, id, false)
  {
  }

  /** Marking an entry that the list already shows with that value changes nothing. */
  lemma MarkFollowingNoChange(users: seq<Entry>, id: string, value: bool)
    requires forall i :: 0 <= i < |users| && users[i].id == id ==> users[i].isFollowing == value
    ensures MarkFollowing(users, id, value) == users
  {
  }

  /** The button an entry gets. */
  datatype Button = Yourself | UnfollowButton(disabled: bool) | FollowButton(disabled: bool)

  /** The signed-in user's own entry gets a disabled "Yourself"; others "Unfollow" or "Follow", disabled while loading. */
  function ButtonFor(u: Entry, currentUserId: Option<string>, isLoading: bool): (b: Button)
    ensures b == Yourself <==> currentUserId == Some(u.id)
    ensures b.UnfollowButton? <==> currentUserId != Some(u.id) && u.isFollowing
    ensures b.FollowButton? <==> currentUserId != Some(u.id) && !u.isFollowing
    ensures !b.Yourself? ==> b.disabled == isLoading
  {
    if currentUserId == Some(u.id) then Yourself
    else if u.isFollowing then UnfollowButton(isLoading)
    else FollowButton(isLoading)
  }

  class Network {
    var users: seq<Entry>
    var isLoading: bool

    constructor ()
      ensures users == [] && !isLoading
    {
      users := [];
      isLoading := false;
    }

    /** `fetchUsers`: the list is replaced only by the data of a successful response. */
    method FetchUsers(response: Option<seq<Entry>>)
      modifies this
      ensures users == if response.Some? then response.value else old(users)
      ensures !isLoading
    {
      isLoading := true;
      if response.Some? {
        users := response.value;
      }
      isLoading := false;
    }

    /** `handleFollow`: after a successful request the target entry shows as followed. */
    method HandleFollow(targetId: string, ok: bool)
      modifies this
      ensures users == if ok then MarkFollowing(old(users), targetId, true) else old(users)
      ensures !isLoading
    {
      isLoading := true;
      if ok {
        users := MarkFollowing(users, targetId, true);
      }
      isLoading := false;
    }

    /** `handleUnfollow`: after a successful request the target entry shows as not followed. */
    method HandleUnfollow(targetId: string, ok: bool)
      modifies this
      ensures users == if ok then MarkFollowing(old(users), targetId, false) else old(users)
      ensures !isLoading
    {
      isLoading := true;
      if ok {
        users := MarkFollowing(users, targetId, false);
      }
      isLoading := false;
    }
  }
}
