/**
 * EmailAccount1: an account holds a first name, a last name and a dot
 * number; the address is lastname.N@osu.edu, lower-cased, where N counts the
 * accounts created so far with the same last name, ignoring case. The
 * counts live in a map shared by all accounts, which the model makes an
 * explicit Registry object.
 */
module EmailAccounts {
  import opened Text
  import opened Tally

  const Domain: string := "@osu.edu"

  /** The address for a last name and a dot number: lower(lastName) + "." + dotNum + "@osu.edu". */
  function Address(lastName: string, dotNum: nat): (r: string)
    ensures |r| == |lastName| + 1 + |NatToString(dotNum)| + |Domain|
    ensures r[..|lastName|] == LowerString(lastName) && r[|lastName|] == '.'
    ensures r[|lastName| + 1..|r| - |Domain|] == NatToString(dotNum)
    ensures r[|r| - |Domain|..] == Domain
    ensures forall i :: 0 <= i < |r| ==> !('A' <= r[i] <= 'Z')
  {
    var digits := NatToString(dotNum);
    var r := LowerString(lastName) + "." + digits + Domain;
    assert forall i :: 0 <= i < |digits| ==> r[|lastName| + 1 + i] == digits[i];
    r
  }

  /**
   * The address determines the lower-cased last name and the dot number: the
   * digits hold no '.', so the last '.' before the domain separates the two.
   */
  lemma AddressInjective(lastName1: string, dotNum1: nat, lastName2: string, dotNum2: nat)
    requires Address(lastName1, dotNum1) == Address(lastName2, dotNum2)
    ensures LowerString(lastName1) == LowerString(lastName2) && dotNum1 == dotNum2
  {
    var l1, d1 := LowerString(lastName1), NatToString(dotNum1);
    var l2, d2 := LowerString(lastName2), NatToString(dotNum2);
    var x1, x2 := l1 + "." + d1, l2 + "." + d2;
    assert Address(lastName1, dotNum1) == x1 + Domain;
    assert Address(lastName2, dotNum2) == x2 + Domain;
    assert x1 == (x1 + Domain)[..|x1|];
    assert x2 == (x2 + Domain)[..|x2|];
    assert x1 == x2;
    if |d1| != |d2| {
      assert false;
    } else {
      assert l1 == x1[..|l1|] && l2 == x2[..|l2|];
      assert d1 == x1[|l1| + 1..] && d2 == x2[|l2| + 1..];
      NatToStringInjective(dotNum1, dotNum2);
    }
  }

  /** The registry of dot numbers: for each lower-cased last name, the dot number last handed out. */
  class Registry {
    var database: map<string, int>

    /** Every recorded dot number is positive. */
    predicate Valid()
      reads this
    {
      forall k :: k in database ==> database[k] > 0
    }

    /** The registry as it is when the program starts: empty. */
    constructor()
      ensures database == map[] && Valid()
    {
      database := map[];
    }
  }

  class EmailAccount {
    var firstName: string
    var lastName: string
    var dotNum: nat

    /**
     * A new account: its dot number is one more than the one recorded for its
     * lower-cased last name, or 1 when none is recorded, and the registry
     * records the new dot number.
     */
    constructor(firstName: string, lastName: string, registry: Registry)
      requires registry.Valid()
      modifies registry
      ensures this.firstName == firstName && this.lastName == lastName
      ensures dotNum == Get(old(registry.database), LowerString(lastName)) + 1
      ensures registry.database == Bump(old(registry.database), LowerString(lastName))
      ensures registry.Valid()
    {
      this.firstName := firstName;
      this.lastName := lastName;
      var lastNameLower := LowerString(lastName);
      var n: nat;
      if lastNameLower in registry.database {
        n := registry.database[lastNameLower] + 1;
      } else {
        n := 1;
      }
      this.dotNum := n;
      new;
      registry.database := registry.database[lastNameLower := n];
    }

    /** The full name: first name, a space, last name. */
    function Name(): (r: string)
      reads this
      ensures |r| == |firstName| + 1 + |lastName|
      ensures r[..|firstName|] == firstName && r[|firstName|] == ' ' && r[|firstName| + 1..] == lastName
    {
      firstName + " " + lastName
    }

    /** The account's address. */
    function EmailAddress(): (r: string)
      reads this
      ensures |r| > |lastName| + |Domain|
      ensures r[|r| - |Domain|..] == Domain
      ensures forall i :: 0 <= i < |r| ==> !('A' <= r[i] <= 'Z')
    {
      Address(lastName, dotNum)
    }

    /** "Name: " followed by the name, ", Email: " and the address. */
    function ToString(): (r: string)
      reads this
      ensures |r| == 6 + |Name()| + 9 + |EmailAddress()|
      ensures r[..6] == "Name: " && r[6..6 + |Name()|] == Name()
      ensures r[6 + |Name()|..6 + |Name()| + 9] == ", Email: "
      ensures r[|r| - |EmailAddress()|..] == EmailAddress()
    {
      "Name: " + Name() + ", Email: " + EmailAddress()
    }
  }

  /** The last names lower-cased, as the registry keys them. */
  function Lowered(lastNames: seq<string>): (r: seq<string>)
    ensures |r| == |lastNames|
    ensures forall i :: 0 <= i < |r| ==> r[i] == LowerString(lastNames[i])
  {
    if lastNames == [] then [] else Lowered(lastNames[..|lastNames| - 1]) + [LowerString(lastNames[|lastNames| - 1])]
  }

  /** The dot number of the i-th of a series of accounts: how many of the first i + 1 share its lower-cased last name. */
  function DotNumber(lastNames: seq<string>, i: nat): nat
    requires i < |lastNames|
  {
    Occurrences(Lowered(lastNames[..i + 1]), LowerString(lastNames[i]))
  }

  /**
   * Creating accounts one after another from an empty registry: afterwards
   * the registry holds, for each lower-cased last name, the number of
   * accounts created with it; the i-th account's dot number is the number of
   * accounts among the first i + 1 with its last name; and no two accounts
   * share an address.
   */
  method CreateAccounts(firstNames: seq<string>, lastNames: seq<string>)
    returns (accounts: seq<EmailAccount>, registry: Registry)
    requires |firstNames| == |lastNames|
    ensures |accounts| == |lastNames|
    ensures registry.Valid()
    ensures registry.database == Tallied(map[], Lowered(lastNames))
    ensures forall i :: 0 <= i < |accounts| ==>
              accounts[i].lastName == lastNames[i] && accounts[i].dotNum == DotNumber(lastNames, i)
    ensures forall i, j :: 0 <= i < j < |accounts| ==> accounts[i].EmailAddress() != accounts[j].EmailAddress()
  {
    registry := new Registry();
    accounts := [];
    for i := 0 to |lastNames|
      invariant |accounts| == i
      invariant registry.Valid()
      invariant registry.database == Tallied(map[], Lowered(lastNames[..i]))
      invariant Created(accounts, lastNames)
    {
      ghost var before := registry.database;
      var account := new EmailAccount(firstNames[i], lastNames[i], registry);
      Registered(lastNames, i, before, account.dotNum, registry.database);
      CreatedSnoc(accounts, account, lastNames);
      accounts := accounts + [account];
    }
    assert lastNames[..|lastNames|] == lastNames;
    CreatedDistinct(accounts, lastNames);
  }

  /** The accounts carry, in order, the last names and the dot numbers a series of creations hands out. */
  ghost predicate Created(accounts: seq<EmailAccount>, lastNames: seq<string>)
    reads accounts
  {
    && |accounts| <= |lastNames|
    && forall k :: 0 <= k < |accounts| ==>
         accounts[k].lastName == lastNames[k] && accounts[k].dotNum == DotNumber(lastNames, k)
  }

  /** Accounts created one after another have pairwise distinct addresses. */
  lemma CreatedDistinct(accounts: seq<EmailAccount>, lastNames: seq<string>)
    requires Created(accounts, lastNames)
    ensures forall i, j :: 0 <= i < j < |accounts| ==> accounts[i].EmailAddress() != accounts[j].EmailAddress()
  {
    forall i, j | 0 <= i < j < |accounts|
      ensures accounts[i].EmailAddress() != accounts[j].EmailAddress()
    {
      AddressesDistinct(lastNames, i, j);
    }
  }

  /** One more account, created with the next last name and its dot number. */
  lemma CreatedSnoc(accounts: seq<EmailAccount>, account: EmailAccount, lastNames: seq<string>)
    requires Created(accounts, lastNames) && |accounts| < |lastNames|
    requires account.lastName == lastNames[|accounts|] && account.dotNum == DotNumber(lastNames, |accounts|)
    ensures Created(accounts + [account], lastNames)
  {
  }

  /** One account more: the registry and the new dot number as the loop invariant of CreateAccounts describes them. */
  lemma Registered(lastNames: seq<string>, i: nat, before: map<string, int>, dotNum: nat, after: map<string, int>)
    requires i < |lastNames|
    requires before == Tallied(map[], Lowered(lastNames[..i]))
    requires dotNum == Get(before, LowerString(lastNames[i])) + 1
    requires after == Bump(before, LowerString(lastNames[i]))
    ensures after == Tallied(map[], Lowered(lastNames[..i + 1]))
    ensures dotNum == DotNumber(lastNames, i)
  {
    var w := LowerString(lastNames[i]);
    assert lastNames[..i + 1][..i] == lastNames[..i];
    assert Lowered(lastNames[..i + 1]) == Lowered(lastNames[..i]) + [w];
    TalliedSnoc(map[], Lowered(lastNames[..i]), w);
    TalliedGet(map[], Lowered(lastNames[..i]), w);
    OccurrencesSnoc(Lowered(lastNames[..i]), w, w);
  }

  /** The dot numbers handed out for one lower-cased last name strictly increase. */
  lemma {:induction false} OccurrencesIncrease(ws: seq<string>, i: nat, j: nat)
    requires i < j < |ws| && ws[j] == ws[i]
    ensures Occurrences(ws[..i + 1], ws[i]) < Occurrences(ws[..j + 1], ws[j])
    decreases j - i
  {
    OccurrencesSnoc(ws[..j], ws[j], ws[j]);
    assert ws[..j + 1] == ws[..j] + [ws[j]];
    if i + 1 < j {
      OccurrencesSnoc(ws[..j - 1], ws[j - 1], ws[j]);
      assert ws[..j] == ws[..j - 1] + [ws[j - 1]];
      OccurrencesGrow(ws, i + 1, j - 1, ws[i]);
    } else {
      assert ws[..j] == ws[..i + 1];
    }
  }

  /** Occurrences in a longer prefix are at least those in a shorter one. */
  lemma {:induction false} OccurrencesGrow(ws: seq<string>, a: nat, b: nat, w: string)
    requires a <= b <= |ws|
    ensures Occurrences(ws[..a], w) <= Occurrences(ws[..b], w)
    decreases b - a
  {
    if a < b {
      OccurrencesGrow(ws, a, b - 1, w);
      OccurrencesSnoc(ws[..b - 1], ws[b - 1], w);
      assert ws[..b] == ws[..b - 1] + [ws[b - 1]];
    }
  }

  /**
   * Accounts created one after another from an empty registry have pairwise
   * distinct addresses: two with the same lower-cased last name get different
   * dot numbers, and two with different ones differ before the '.'.
   */
  lemma AddressesDistinct(lastNames: seq<string>, i: nat, j: nat)
    requires i < j < |lastNames|
    ensures Address(lastNames[i], DotNumber(lastNames, i)) != Address(lastNames[j], DotNumber(lastNames, j))
  {
    var ws := Lowered(lastNames);
    var ni, nj := DotNumber(lastNames, i), DotNumber(lastNames, j);
    if Address(lastNames[i], ni) == Address(lastNames[j], nj) {
      AddressInjective(lastNames[i], ni, lastNames[j], nj);
      assert Lowered(lastNames[..i + 1]) == ws[..i + 1];
      assert Lowered(lastNames[..j + 1]) == ws[..j + 1];
      OccurrencesIncrease(ws, i, j);
    }
  }
}
