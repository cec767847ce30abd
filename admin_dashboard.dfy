/**
  The admin dashboard (src/components/AdminDashboard.tsx): the fixed record list it shows,
  the `searchQuery`/`searchResults` state, `handleSearch` and the two record counts.
 */
module Dashboard {
  import opened Wrappers
  import opened Text
  import Services

  /** One entry of the dashboard's record list. */
  datatype User = User(
    id: int,
    name: string,
    email: string,
    mobile: string,
    acceptedAt: string,
    status: string)

  /** The built-in list the dashboard searches (`mockUsers`). */
  const MockUsers: seq<User> := [
    User(1, "JOHN SMITH", "john.smith@email.com", "+1234567890", "2024-08-15 14:30:00", "ACCEPTED"),
    User(2, "JANE DOE", "jane.doe@email.com", "+1987654321", "2024-08-15 15:45:00", "ACCEPTED"),
    User(3, "MIKE JOHNSON", "mike.j@email.com", "+1122334455", "2024-08-15 16:20:00", "ACCEPTED")
  ]

  /** The match test: name or email contain the query case-insensitively, or the mobile
      number contains it exactly as typed. */
  predicate Matches(u: User, query: string)
  {
    Contains(Lower(u.name), Lower(query)) ||
    Contains(Lower(u.email), Lower(query)) ||
    Contains(u.mobile, query)
  }

  /** `users.filter(user => Matches(user, query))` */
  function Filter(users: seq<User>, query: string): (r: seq<User>)
    ensures |r| <= |users|
    ensures forall k :: 0 <= k < |r| ==> Matches(r[k], query) && r[k] in users
  {
    if users == [] then []
    else (if Matches(users[0], query) then [users[0]] else []) + Filter(users[1..], query)
  }

  /** `xs` is `ys` with some entries dropped and the rest kept in their order. */
  predicate IsSubsequence(xs: seq<User>, ys: seq<User>)
    decreases |ys|
  {
    xs == [] ||
    (ys != [] &&
     ((xs[0] == ys[0] && IsSubsequence(xs[1..], ys[1..])) || IsSubsequence(xs, ys[1..])))
  }

  lemma {:induction false} SubsequenceReflexive(ys: seq<User>)
    ensures IsSubsequence(ys, ys)
    decreases |ys|
  {
    if ys != [] {
      SubsequenceReflexive(ys[1..]);
    }
  }

  /** Every matching record is kept. */
  lemma {:induction false} FilterComplete(users: seq<User>, query: string, i: int)
    requires 0 <= i < |users| && Matches(users[i], query)
    ensures users[i] in Filter(users, query)
    decreases |users|
  {
    if i > 0 {
      FilterComplete(users[1..], query, i - 1);
    }
  }

  /** The results keep the order of the list. */
  lemma {:induction false} FilterIsSubsequence(users: seq<User>, query: string)
    ensures IsSubsequence(Filter(users, query), users)
    decreases |users|
  {
    if users != [] {
      var rest := Filter(users[1..], query);
      FilterIsSubsequence(users[1..], query);
      if Matches(users[0], query) {
        assert Filter(users, query) == [users[0]] + rest;
        assert ([users[0]] + rest)[1..] == rest;
      } else {
        assert Filter(users, query) == rest;
      }
    }
  }

  /** Filtering works record by record: it distributes over concatenation. */
  lemma {:induction false} FilterConcat(a: seq<User>, b: seq<User>, query: string)
    ensures Filter(a + b, query) == Filter(a, query) + Filter(b, query)
    decreases |a|
  {
    if a != [] {
      assert (a + b)[0] == a[0];
      assert (a + b)[1..] == a[1..] + b;
      FilterConcat(a[1..], b, query);
      if Matches(a[0], query) {
        assert Filter(a + b, query) == [a[0]] + Filter(a[1..] + b, query);
      } else {
        assert Filter(a + b, query) == Filter(a[1..] + b, query);
      }
    } else {
      assert a + b == b;
    }
  }

  /** Nothing is dropped exactly when every record matches. */
  lemma {:induction false} FilterKeepsAllIff(users: seq<User>, query: string)
    ensures Filter(users, query) == users <==> forall k :: 0 <= k < |users| ==> Matches(users[k], query)
    decreases |users|
  {
    if users != [] {
      FilterKeepsAllIff(users[1..], query);
      if Filter(users, query) == users {
        assert Matches(users[0], query);
      }
    }
  }

  /** Records stored through `create` match the same queries as the data typed into the
      form: the search looks at name and email case-insensitively. */
  lemma StoredRowMatchesLikeInput(
    data: Services.NewAcceptance, now: string, id: int, status: string, query: string)
    ensures var row := Services.NewRow(data, now);
            Matches(User(id, row.name, row.email, row.mobile, now, status), query) <==>
            Matches(User(id, data.name, data.email, data.mobile, now, status), query)
  {
  }

  /** A record none of whose fields holds a tab. */
  predicate HasNoTab(u: User)
  {
    '\t' !in u.name && '\t' !in u.email && '\t' !in u.mobile
  }

  /** A tab in front of the query is part of the query, so a record without tabs does
      not match it. */
  lemma TabbedQueryMatchesNothing(u: User, query: string)
    requires HasNoTab(u)
    ensures !Matches(u, ['\t'] + query)
  {
    var q := ['\t'] + query;
    assert Lower(q)[0] == '\t';
    NotInLower(u.name, '\t');
    NotInLower(u.email, '\t');
    MissingCharNotContained(Lower(u.name), Lower(q), '\t');
    MissingCharNotContained(Lower(u.email), Lower(q), '\t');
    MissingCharNotContained(u.mobile, q, '\t');
  }

  /** "john" occurs in the lower-cased name of a record whose name holds "JOHN" at `at`. */
  lemma JohnInName(u: User, at: nat)
    requires at + 4 <= |u.name| && u.name[at..at + 4] == "JOHN"
    ensures Matches(u, "john")
  {
    var name, q := Lower(u.name), "john";
    assert Lower(q) == q;
    assert name[at..at + 4] == q by {
      assert u.name[at] == 'J' && u.name[at + 1] == 'O';
      assert u.name[at + 2] == 'H' && u.name[at + 3] == 'N';
    }
    assert OccursAt(name, q, at);
    ContainsIff(name, q);
  }

  /**
    The query is matched as typed; only the blank test trims it. On records without tabs,
    a name holding "JOHN" is found by "john" but nothing is found by a tab followed by
    "john", although both queries trim to the same text.
   */
  lemma {:induction false} UntrimmedQueryMatters(users: seq<User>, i: int, at: nat)
    requires forall k :: 0 <= k < |users| ==> HasNoTab(users[k])
    requires 0 <= i < |users| && at + 4 <= |users[i].name| && users[i].name[at..at + 4] == "JOHN"
    ensures users[i] in Filter(users, "john")
    ensures Filter(users, "\tjohn") == []
    ensures Trim("\tjohn") == Trim("john")
  {
    assert ['\t'] + "john" == "\tjohn";
    TrimIgnoresLeadingWhiteSpace('\t', "john");
    JohnInName(users[i], at);
    FilterComplete(users, "john", i);
    var r := Filter(users, "\tjohn");
    if r != [] {
      var k :| 0 <= k < |users| && users[k] == r[0];
      assert ['\t'] + "john" == "\tjohn";
      TabbedQueryMatchesNothing(users[k], "john");
    }
  }

  class AdminDashboard {
    /** The full record list, fixed when the dashboard is created. */
    const records: seq<User>
    var searchQuery: string
    var searchResults: seq<User>

    /** The full list is as long as the built-in one, and the shown records are always
        taken from it, in its order. */
    ghost predicate Valid()
      reads this
    {
      |records| == |MockUsers| && IsSubsequence(searchResults, records)
    }

    constructor ()
      ensures Valid()
      ensures records == MockUsers && searchQuery == "" && searchResults == records
    {
      records := MockUsers;
      searchQuery := "";
      searchResults := MockUsers;
      SubsequenceReflexive(MockUsers);
    }

    method SetSearchQuery(value: string)
      requires Valid()
      modifies this
      ensures Valid()
      ensures searchQuery == value && searchResults == old(searchResults)
    {
      searchQuery := value;
    }

    /**
      `handleSearch`: a blank query shows the whole list again and shows no toast;
      any other query shows the matching records, untrimmed query and all, and returns
      the count of the "SEARCH EXECUTED" toast.
     */
    method HandleSearch() returns (found: Option<nat>)
      requires Valid()
      modifies this
      ensures Valid()
      ensures searchQuery == old(searchQuery)
      ensures IsBlank(searchQuery) ==> searchResults == records && found == None
      ensures !IsBlank(searchQuery) ==>
                searchResults == Filter(records, searchQuery) &&
                found == Some(|searchResults|)
    {
      TrimEmptyIffBlank(searchQuery);
      if Trim(searchQuery) == [] {
        searchResults := records;
        SubsequenceReflexive(records);
        return None;
      }
      var filtered := Filter(records, searchQuery);
      FilterIsSubsequence(records, searchQuery);
      searchResults := filtered;
      return Some(|filtered|);
    }

    /** The "TOTAL: n RECORDS" header counts the records on show, never more than
        the full list. */
    function HeaderCount(): (n: nat)
      reads this
      requires Valid()
      ensures n == |searchResults| && n <= |records|
    {
      SubsequenceShorter(searchResults, records);
      |searchResults|
    }

    /** The "TOTAL ACCEPTANCES" tile counts the built-in list, whatever the search shows,
        so it is never below the header count. */
    function TotalAcceptances(): (n: nat)
      reads this
      requires Valid()
      ensures n == |MockUsers|
      ensures HeaderCount() <= n
    {
      SubsequenceShorter(searchResults, records);
      |records|
    }
  }

  lemma {:induction false} SubsequenceShorter(xs: seq<User>, ys: seq<User>)
    requires IsSubsequence(xs, ys)
    ensures |xs| <= |ys|
    decreases |ys|
  {
    if xs != [] {
      if xs[0] == ys[0] && IsSubsequence(xs[1..], ys[1..]) {
        SubsequenceShorter(xs[1..], ys[1..]);
      } else {
        SubsequenceShorter(xs, ys[1..]);
      }
    }
  }
}
