/** The three stateful components of the widget: the app with its registry,
    add-panel flag and selection, the add-friend form and the split form.
    Each setter call of a handler becomes an assignment to a field. */
module Components {
  import opened Friends

  class App {
    var friends: seq<Friend>
    var showAddUser: bool
    var activeFriend: Option<Friend>

    /** Ids are unique and a selected friend is one of the registry's ids.
        The source does not check this; the handlers below keep it. */
    ghost predicate Consistent()
      reads this
    {
      UniqueIds(friends) && (activeFriend.Some? ==> HasId(friends, activeFriend.value.id))
    }

    constructor (initialFriends: seq<Friend>)
      ensures friends == initialFriends && !showAddUser && activeFriend == None
      ensures UniqueIds(initialFriends) ==> Consistent()
    {
      friends := initialFriends;
      showAddUser := false;
      activeFriend := None;
    }

    /** Appends the new record and closes the add panel; the selection stays. */
    method HandleAddFriend(friend: Friend)
      modifies this
      ensures friends == old(friends) + [friend]
      ensures !showAddUser && activeFriend == old(activeFriend)
      ensures old(Consistent()) && !HasId(old(friends), friend.id) ==> Consistent()
    {
      if Consistent() && !HasId(friends, friend.id) {
        AppendKeepsUniqueIds(friends, friend);
      }
      friends := friends + [friend];
      showAddUser := false;
    }

    /** Selects `friend`, or clears the selection when that friend was the
        selected one, and closes the add panel. */
    method HandleActiveFriend(friend: Friend)
      modifies this
      ensures activeFriend == Toggle(old(activeFriend), friend)
      ensures old(activeFriend).Some? && old(activeFriend).value.id != friend.id ==>
                activeFriend == Some(friend)
      ensures friends == old(friends) && !showAddUser
      ensures old(Consistent()) && HasId(friends, friend.id) ==> Consistent()
    {
      activeFriend := Toggle(activeFriend, friend);
      showAddUser := false;
    }

    /** Adds `value` to the balance of the selected friend's entry and clears
        the selection; the add panel is left as it is. */
    method HandleSplitBill(value: int)
      requires activeFriend.Some?
      modifies this
      ensures friends == ApplySplit(old(friends), old(activeFriend).value.id, value)
      ensures activeFriend == None && showAddUser == old(showAddUser)
      ensures old(Consistent()) ==> Consistent()
      ensures old(Consistent()) ==> TotalBalance(friends) == old(TotalBalance(friends)) + value
    {
      var id := activeFriend.value.id;
      ApplySplitKeepsIds(friends, id, value);
      if Consistent() {
        ApplySplitTotalUnique(friends, id, value);
      }
      friends := ApplySplit(friends, id, value);
      activeFriend := None;
    }

    /** The "Add Friend"/"Close" button: flips the add panel and nothing else. */
    method ToggleAddPanel()
      modifies this
      ensures showAddUser == !old(showAddUser)
      ensures friends == old(friends) && activeFriend == old(activeFriend)
    {
      showAddUser := !showAddUser;
    }
  }

  class FormAddFriend {
    var name: string
    var image: string

    constructor ()
      ensures name == "" && image == DefaultImage
    {
      name := "";
      image := DefaultImage;
    }

    method SetName(value: string)
      modifies this
      ensures name == value && image == old(image)
    {
      name := value;
    }

    method SetImage(value: string)
      modifies this
      ensures image == value && name == old(name)
    {
      image := value;
    }

    /** With both fields filled, hands a fresh record to the app and resets
        the fields; with either field empty, does nothing. The id is the one
        the generator returns for this submission. */
    method HandleSubmit(app: App, id: string)
      modifies this, app
      ensures !AddAllowed(old(name), old(image)) ==> unchanged(this, app)
      ensures AddAllowed(old(name), old(image)) ==>
                app.friends == old(app.friends) + [NewFriend(id, old(name), old(image))]
                && !app.showAddUser && app.activeFriend == old(app.activeFriend)
                && name == "" && image == DefaultImage
      ensures old(app.Consistent()) && !HasId(old(app.friends), id) ==> app.Consistent()
    {
      if !AddAllowed(name, image) {
        return;
      }
      var newFriend := NewFriend(id, name, image);
      app.HandleAddFriend(newFriend);
      image := DefaultImage;
      name := "";
    }
  }

  class FormSplitBill {
    var bill: int
    var userExpense: int
    var payer: Payer

    /** Both amount fields start empty (0) and the user is the payer. */
    constructor ()
      ensures bill == 0 && userExpense == 0 && payer == You
    {
      bill := 0;
      userExpense := 0;
      payer := You;
    }

    /** Editing the bill never re-clamps an expense already entered. */
    method SetBill(value: int)
      modifies this
      ensures bill == value && userExpense == old(userExpense) && payer == old(payer)
    {
      bill := value;
    }

    /** Editing the payer's expense field (the user's when the user pays, the
        friend's when the friend pays): a value above the current bill is
        ignored. */
    method SetUserExpense(value: int)
      modifies this
      ensures userExpense == ClampExpense(old(userExpense), value, bill)
      ensures userExpense <= bill || userExpense == old(userExpense)
      ensures bill == old(bill) && payer == old(payer)
    {
      userExpense := ClampExpense(userExpense, value, bill);
    }

    method SetPayer(value: Payer)
      modifies this
      ensures payer == value && bill == old(bill) && userExpense == old(userExpense)
    {
      payer := value;
    }

    /** Submits the split for the selected friend; with the bill or the
        expense empty, nothing changes. */
    method HandleSubmit(app: App)
      requires app.activeFriend.Some?
      modifies app
      ensures !SplitAllowed(bill, userExpense) ==> unchanged(app)
      ensures SplitAllowed(bill, userExpense) ==>
                app.friends == ApplySplit(old(app.friends), old(app.activeFriend).value.id,
                                          SplitDelta(bill, userExpense, payer))
                && app.activeFriend == None && app.showAddUser == old(app.showAddUser)
      ensures old(app.Consistent()) ==> app.Consistent()
    {
      if !SplitAllowed(bill, userExpense) {
        return;
      }
      app.HandleSplitBill(SplitDelta(bill, userExpense, payer));
    }
  }

  /** Two friends, the first selected, a bill of 20 with the user's expense 8
      and the user paying: the first friend's balance goes from -7 to 5 and the
      selection is cleared; the second friend is untouched. */
  method SplitScenario() returns (first: Friend, second: Friend, cleared: bool)
    ensures first == Friend("1", "Clark", "c", 5)
    ensures second == Friend("2", "Sarah", "s", 20)
    ensures cleared
  {
    var clark := Friend("1", "Clark", "c", -7);
    var app := new App([clark, Friend("2", "Sarah", "s", 20)]);
    app.HandleActiveFriend(clark);
    var form := new FormSplitBill();
    form.SetBill(20);
    form.SetUserExpense(8);
    form.HandleSubmit(app);
    first, second := app.friends[0], app.friends[1];
    cleared := app.activeFriend == None;
  }

  /** The clamp looks at the bill only when the expense is edited: after an
      expense of 40 on a bill of 50, lowering the bill to 30 keeps the 40, and
      a split the user paid then lowers the friend's balance by 10. */
  method StaleExpenseScenario() returns (expense: int, bill: int, balance: int)
    ensures expense == 40 && bill == 30 && expense > bill
    ensures balance == -10
  {
    var ann := Friend("a", "Ann", "i", 0);
    var app := new App([ann]);
    app.HandleActiveFriend(ann);
    var form := new FormSplitBill();
    form.SetBill(50);
    form.SetUserExpense(40);
    form.SetBill(30);
    expense, bill := form.userExpense, form.bill;
    form.HandleSubmit(app);
    balance := app.friends[0].balance;
  }

  /** An expense above the bill is rejected: bill 50, expense 10, an edit to
      60 leaves the field at 10. A new friend named Ann gets a zero balance and
      the template with `?=<id>` appended. */
  method FormScenario(id: string) returns (expense: int, added: Friend)
    ensures expense == 10
    ensures added.id == id && added.balance == 0
    ensures added.image == "https://example.com/48?=" + id
  {
    var split := new FormSplitBill();
    split.SetBill(50);
    split.SetUserExpense(10);
    split.SetUserExpense(60);
    expense := split.userExpense;
    var app := new App([]);
    var form := new FormAddFriend();
    form.SetName("Ann");
    form.SetImage("https://example.com/48");
    form.HandleSubmit(app, id);
    added := app.friends[0];
  }
}
