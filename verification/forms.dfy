/**
 * The forms of the LTI tool: the choices offered when an instructor embeds
 * an assignment object as a content item, the choice preselected, and the
 * profiles offered as course admins. Query sets are sequences in the order
 * the database returns them.
 */
module Forms {
  import opened Values
  import opened Text

  /** A target object of an assignment: its primary key and title. */
  datatype TargetObject = TargetObject(pk: nat, title: string)

  /** A published assignment with its target objects in their stored order. */
  datatype Assignment = Assignment(assignmentId: string, name: string, targets: seq<TargetObject>)

  /** A radio choice: the submitted value and the label shown for it. */
  datatype Choice = Choice(value: string, caption: string)

  /** A named group of choices, one group per assignment. */
  datatype Group = Group(name: string, choices: seq<Choice>)

  /** The value that identifies target `pk` of assignment `assignmentId`: "<assignment id>/<pk>". */
  function ChoiceValue(assignmentId: string, pk: nat): (v: string)
    ensures |v| > |assignmentId| + 1 && v[..|assignmentId|] == assignmentId && v[|assignmentId|] == '/'
  {
    assignmentId + "/" + NatToString(pk)
  }

  /** Reading a choice value: the text before its last '/' and the number after it. */
  function ParseChoiceValue(v: string): Option<(string, nat)>
  {
    var k := RFind(v, '/');
    if k < 0 then None
    else
      var digits := v[k + 1..];
      if digits != [] && AllDigits(digits) then Some((v[..k], ParseNat(digits))) else None
  }

  /** A choice value identifies its assignment and target, whatever the assignment id contains. */
  lemma ChoiceValueRoundTrip(assignmentId: string, pk: nat)
    ensures ParseChoiceValue(ChoiceValue(assignmentId, pk)) == Some((assignmentId, pk))
  {
    var digits := NatToString(pk);
    var v := ChoiceValue(assignmentId, pk);
    var k := |assignmentId|;
    assert v[k] == '/';
    assert v[k + 1..] == digits;
    forall j | k < j < |v| ensures v[j] != '/' {
      assert v[j] == digits[j - k - 1];
      assert IsDigit(digits[j - k - 1]);
    }
    assert RFind(v, '/') == k;
    assert v[..k] == assignmentId;
    ParseNatToString(pk);
  }

  /** Two targets of one assignment share a choice value only when they share a key. */
  lemma ChoiceValuesDistinct(assignmentId: string, pk1: nat, pk2: nat)
    requires pk1 != pk2
    ensures ChoiceValue(assignmentId, pk1) != ChoiceValue(assignmentId, pk2)
  {
    ChoiceValueRoundTrip(assignmentId, pk1);
    ChoiceValueRoundTrip(assignmentId, pk2);
  }

  /** The group offered for one assignment: one choice per target, in order. */
  function GroupOf(a: Assignment): (g: Group)
    ensures g.name == a.name && |g.choices| == |a.targets|
    ensures forall j :: 0 <= j < |a.targets| ==>
              g.choices[j] == Choice(ChoiceValue(a.assignmentId, a.targets[j].pk), a.targets[j].title)
  {
    Group(a.name, seq(|a.targets|, j requires 0 <= j < |a.targets| =>
                        Choice(ChoiceValue(a.assignmentId, a.targets[j].pk), a.targets[j].title)))
  }

  /** All groups, one per published assignment, in order. */
  function Groups(assignments: seq<Assignment>): (gs: seq<Group>)
    ensures |gs| == |assignments|
    ensures forall i :: 0 <= i < |assignments| ==> gs[i] == GroupOf(assignments[i])
  {
    seq(|assignments|, i requires 0 <= i < |assignments| => GroupOf(assignments[i]))
  }

  /** The grouped choices, built by appending to each group and then to the list of groups. */
  method GetChoices(assignments: seq<Assignment>) returns (choices: seq<Group>)
    ensures choices == Groups(assignments)
  {
    choices := [];
    for i := 0 to |assignments|
      invariant |choices| == i
      invariant forall k :: 0 <= k < i ==> choices[k] == GroupOf(assignments[k])
    {
      var assignment := assignments[i];
      var groupName := assignment.name;
      var groupChoices: seq<Choice> := [];
      for j := 0 to |assignment.targets|
        invariant |groupChoices| == j
        invariant forall k :: 0 <= k < j ==>
                    groupChoices[k] == Choice(ChoiceValue(assignment.assignmentId, assignment.targets[k].pk),
                                              assignment.targets[k].title)
      {
        var target := assignment.targets[j];
        var value := assignment.assignmentId + "/" + NatToString(target.pk);
        var caption := target.title;
        groupChoices := groupChoices + [Choice(value, caption)];
      }
      assert Group(groupName, groupChoices) == GroupOf(assignment);
      choices := choices + [Group(groupName, groupChoices)];
    }
  }

  /**
   * The preselected choice: None without groups, else the value of the first
   * choice of the first group; a first group without choices raises
   * IndexError.
   */
  function InitialChoice(choices: seq<Group>): (r: Result<Option<string>>)
    ensures r == Ok(None) <==> choices == []
    ensures r.Err? <==> choices != [] && choices[0].choices == []
    ensures r.Err? ==> r.error == IndexError
    ensures r.Ok? && r.value.Some? ==> r.value.value == choices[0].choices[0].value
  {
    if |choices| == 0 then Ok(None)
    else
      var groupChoices := choices[0].choices;
      if |groupChoices| == 0 then Err(IndexError) else Ok(Some(groupChoices[0].value))
  }

  /**
   * For the groups built from the published assignments, the preselected
   * choice is the first target of the first assignment; an assignment list
   * whose first assignment has no targets makes the form raise.
   */
  lemma InitialChoiceOfAssignments(assignments: seq<Assignment>)
    ensures assignments == [] ==> InitialChoice(Groups(assignments)) == Ok(None)
    ensures assignments != [] && assignments[0].targets == [] ==> InitialChoice(Groups(assignments)) == Err(IndexError)
    ensures assignments != [] && assignments[0].targets != [] ==>
              InitialChoice(Groups(assignments)) ==
              Ok(Some(ChoiceValue(assignments[0].assignmentId, assignments[0].targets[0].pk)))
  {
    if assignments != [] {
      assert Groups(assignments)[0] == GroupOf(assignments[0]);
    }
  }

  /** A profile offered as course admin: display name, account username and scope. */
  datatype Profile = Profile(name: string, username: string, scope: Option<string>)

  /** A user scope that filters: set and not empty. */
  predicate Scoped(userScope: Option<string>)
  {
    userScope.Some? && userScope.value != ""
  }

  /** Profile `p` is offered: no scope filter, or its scope is the user's or unset. */
  predicate Offered(p: Profile, userScope: Option<string>)
  {
    !Scoped(userScope) || p.scope == userScope || p.scope.None?
  }

  /** The profiles offered, in query order. */
  function ScopeFilter(profiles: seq<Profile>, userScope: Option<string>): (r: seq<Profile>)
    ensures forall p :: p in r <==> p in profiles && Offered(p, userScope)
    ensures multiset(r) <= multiset(profiles)
    ensures !Scoped(userScope) ==> r == profiles
    decreases |profiles|
  {
    if profiles == [] then []
    else
      var rest := ScopeFilter(profiles[1..], userScope);
      assert profiles == [profiles[0]] + profiles[1..];
      if Offered(profiles[0], userScope) then [profiles[0]] + rest else rest
  }

  /** Lexicographic order on strings by code point. */
  predicate LexLe(a: string, b: string)
    decreases |a|
  {
    a == [] || (b != [] && (a[0] < b[0] || (a[0] == b[0] && LexLe(a[1..], b[1..]))))
  }

  lemma {:induction false} LexLeTotal(a: string, b: string)
    ensures LexLe(a, b) || LexLe(b, a)
    decreases |a|
  {
    if a != [] && b != [] && a[0] == b[0] {
      LexLeTotal(a[1..], b[1..]);
    }
  }

  lemma {:induction false} LexLeAntisymmetric(a: string, b: string)
    requires LexLe(a, b) && LexLe(b, a)
    ensures a == b
    decreases |a|
  {
    if a != [] {
      LexLeAntisymmetric(a[1..], b[1..]);
      assert a == [a[0]] + a[1..] && b == [b[0]] + b[1..];
    }
  }

  lemma {:induction false} LexLeTransitive(a: string, b: string, c: string)
    requires LexLe(a, b) && LexLe(b, c)
    ensures LexLe(a, c)
    decreases |a|
  {
    if a != [] && a[0] == b[0] && b[0] == c[0] {
      LexLeTransitive(a[1..], b[1..], c[1..]);
    }
  }

  /** `order_by("name", "user__username")`: by name, then by username. */
  predicate ProfileLe(p: Profile, q: Profile)
  {
    (LexLe(p.name, q.name) && p.name != q.name) || (p.name == q.name && LexLe(p.username, q.username))
  }

  lemma ProfileLeTotal(p: Profile, q: Profile)
    ensures ProfileLe(p, q) || ProfileLe(q, p)
  {
    LexLeTotal(p.name, q.name);
    LexLeTotal(p.username, q.username);
  }

  lemma ProfileLeTransitive(p: Profile, q: Profile, r: Profile)
    requires ProfileLe(p, q) && ProfileLe(q, r)
    ensures ProfileLe(p, r)
  {
    if p.name != q.name && q.name != r.name {
      LexLeTransitive(p.name, q.name, r.name);
      if p.name == r.name {
        LexLeAntisymmetric(p.name, q.name);
      }
    } else if p.name == q.name && q.name == r.name {
      LexLeTransitive(p.username, q.username, r.username);
    }
  }

  /** Each profile is in order with the next one. */
  predicate Sorted(s: seq<Profile>)
  {
    forall i :: 0 < i < |s| ==> ProfileLe(s[i - 1], s[i])
  }

  /** `p` placed before the first profile it precedes. */
  function Insert(p: Profile, s: seq<Profile>): (r: seq<Profile>)
    requires Sorted(s)
    ensures Sorted(r)
    ensures multiset(r) == multiset(s) + multiset{p}
    ensures |r| == |s| + 1 && (r[0] == p || (s != [] && r[0] == s[0]))
    decreases |s|
  {
    if s == [] then [p]
    else if ProfileLe(p, s[0]) then [p] + s
    else
      ProfileLeTotal(p, s[0]);
      assert Sorted(s[1..]);
      var rest := Insert(p, s[1..]);
      assert s == [s[0]] + s[1..];
      [s[0]] + rest
  }

  /** The profiles in admin order. */
  function SortProfiles(s: seq<Profile>): (r: seq<Profile>)
    ensures Sorted(r) && multiset(r) == multiset(s)
    decreases |s|
  {
    if s == [] then []
    else
      assert s == [s[0]] + s[1..];
      Insert(s[0], SortProfiles(s[1..]))
  }

  /**
   * The profiles offered as course admins: those in the user's scope or in
   * none (all of them without a user scope), ordered by name and username.
   */
  function CourseAdmins(profiles: seq<Profile>, userScope: Option<string>): (r: seq<Profile>)
    ensures Sorted(r)
    ensures multiset(r) == multiset(ScopeFilter(profiles, userScope))
    ensures forall p :: p in r <==> p in profiles && Offered(p, userScope)
  {
    var r := SortProfiles(ScopeFilter(profiles, userScope));
    assert forall p :: p in r <==> p in multiset(r);
    r
  }

  /** Sorted means every profile is in order with every later one. */
  lemma {:induction false} SortedPairwise(s: seq<Profile>, i: nat, j: nat)
    requires Sorted(s) && i < j < |s|
    ensures ProfileLe(s[i], s[j])
    decreases j - i
  {
    if j > i + 1 {
      SortedPairwise(s, i, j - 1);
      ProfileLeTransitive(s[i], s[j - 1], s[j]);
    }
  }
}
