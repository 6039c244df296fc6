/** The users collection: accounts with a unique user name. */
module UserStore {
  import opened Common
  import opened Decimal

  /** UserDto. `passwordHash` is the encoder's hash of the password; times are seconds. */
  datatype User = User(id: string, username: string, passwordHash: string, createdAt: int)

  function UsernameOf(u: User): string {
    u.username
  }

  function IdOf(u: User): string {
    u.id
  }

  /** The unique index on the user name. */
  predicate UniqueUsernames(users: seq<User>) {
    forall i, j :: 0 <= i < j < |users| ==> users[i].username != users[j].username
  }

  class UserRepository {
    var users: seq<User>
    /** the next generated id, written in decimal */
    var nextId: nat

    ghost predicate Valid()
      reads this
    {
      UniqueUsernames(users)
    }

    constructor ()
      ensures Valid() && users == []
    {
      users := [];
      nextId := 0;
    }

    /** findByUsername */
    function FindByUsername(username: string): (r: Option<User>)
      reads this
      ensures r.Some? ==> r.value in users && r.value.username == username
      ensures r.None? <==> forall u :: u in users ==> u.username != username
    {
      FirstWithValue(users, UsernameOf, username)
    }

    /** existsByUsername */
    predicate ExistsByUsername(username: string): (b: bool)
      reads this
      ensures b <==> FindByUsername(username).Some?
    {
      exists u :: u in users && u.username == username
    }

    /** findById */
    function FindById(id: string): (r: Option<User>)
      reads this
      ensures r.Some? ==> r.value in users && r.value.id == id
      ensures r.None? <==> forall u :: u in users ==> u.id != id
    {
      FirstWithValue(users, IdOf, id)
    }

    /**
     * save of a new account: the store generates its id and appends it. The
     * unique index refuses a second account with a taken user name.
     */
    method Save(u: User) returns (saved: User)
      requires Valid() && !ExistsByUsername(u.username)
      modifies this
      ensures Valid()
      ensures saved == u.(id := NatToDecimal(old(nextId))) && nextId == old(nextId) + 1
      ensures users == old(users) + [saved]
    {
      saved := u.(id := NatToDecimal(nextId));
      assert forall x :: x in users ==> x.username != saved.username;
      users := users + [saved];
      nextId := nextId + 1;
    }
  }
}
