/** The roster cog of `cogs/helpermessage.py`: it keeps, per subject
    channel, the id of a pinned roster message, and patches that roster
    when a member gains or loses a helper role.

    The platform is a map from (channel id, message id) to the message's
    first embed; a fetch of a message that is not in the map is the
    platform's NotFound. Sending, editing and pinning are updates of that
    map or are left out. */
module Helpermessage {

  import opened Wrappers
  import opened Text
  import opened Config
  import opened RosterEmbed

  /** A message on the platform: (channel id, message id). */
  type MessageRef = (nat, nat)

  /** The messages the bot can fetch, each with its first embed. */
  type Posted = map<MessageRef, Embed>

  /** The exceptions that end a handler early: `int(key)` on a key that is
      not a number, `helpermessages[key]` on a missing key, and a fetch of
      a channel or message that does not exist. */
  datatype Fault =
    | MalformedKey(key: string)
    | ChannelNotFound(channel: nat)
    | MissingMessageId(key: string)
    | MessageNotFound(at: MessageRef)

  /** What `embed_getter` returns: `(None, None, None)`, the fetched
      roster, or the exception it raised. */
  datatype Found = NoMatch | Match(at: MessageRef, role: Role, embed: Embed) | Failed(fault: Fault)

  /** The platform after a handler, and the exception that stopped it, if any. */
  datatype Run = Run(posted: Posted, fault: Option<Fault>)

  /** The text `create` puts above the fields, up to the channel's name. */
  const RosterPreamble: string := PreambleWhat + PreambleWait + PreambleApply + PreambleReview
  const PreambleWhat: string := "***What are 'subject helpers'?*** \n\n Subject helpers, or simply \"helpers\", are members who volunteer their time and expertise to help fellow members with certain subjects. "
  const PreambleWait: string := "You can contact the Helpers for this subject by tagging the respective Helper role. Please wait 15 minutes after your question is posted before doing so, though. Most channels & helpers are fairly active anyway, so you should see your question(s) answered before then, whether by a helper or someone else."
  const PreambleApply: string := "\n\n***How do I become a Helper?***\nTo apply to become a Helper, please fill out this form: <https://cutt.ly/ibo-subject-helper-form>"
  const PreambleReview: string := "\n\nYour application will be reviewed by the Helper Managers. Once a decision's been made, you'll be notified via DMs. \n\n **Subject helpers for "

  /** The description `create` gives a roster: the preamble, then the
      channel's name in bold. */
  function CreateDescription(preamble: string, channelName: string): (d: string)
    ensures |d| == |preamble| + |channelName| + 3
    ensures d[..|preamble|] == preamble && d[|preamble|..|preamble| + |channelName|] == channelName
    ensures d[|preamble| + |channelName|..] == ":**"
  {
    preamble + channelName + ":**"
  }

  const MissingRosterReply := "That helpermessage does not exist"

  /** The test `embed_getter` applies to a role and a configured entry.
      The list branch tests whether the edited ROLE is a list, which a role
      never is, so only the scalar comparison `role.id == roles` is live,
      and a list-valued entry never equals an id. */
  predicate EntryMatches(role: Role, entry: Entry) {
    match entry
    case One(id) => id == role.id
    case Many(_) => false
  }

  /** `j` is the first row of `subjects` whose entry matches `role`. */
  predicate FirstRowFor(role: Role, subjects: Subjects, j: int) {
    && 0 <= j < |subjects|
    && EntryMatches(role, subjects[j].1)
    && forall j' :: 0 <= j' < j ==> !EntryMatches(role, subjects[j'].1)
  }

  /** No (role, row) pair matches. */
  predicate NoMatchIn(roles: seq<Role>, subjects: Subjects) {
    forall i, j :: 0 <= i < |roles| && 0 <= j < |subjects| ==> !EntryMatches(roles[i], subjects[j].1)
  }

  /** The inner loop of `embed_getter`: the key of the first matching row. */
  function FirstKey(role: Role, subjects: Subjects): (r: Option<string>)
    ensures r.None? <==> forall j :: 0 <= j < |subjects| ==> !EntryMatches(role, subjects[j].1)
    ensures r.Some? ==> exists j :: FirstRowFor(role, subjects, j) && subjects[j].0 == r.value
  {
    if subjects == [] then None
    else if EntryMatches(role, subjects[0].1) then
      assert FirstRowFor(role, subjects, 0);
      Some(subjects[0].0)
    else
      var r := FirstKey(role, subjects[1..]);
      assert forall j :: 1 <= j < |subjects| ==> subjects[j] == subjects[1..][j - 1];
      assert r.Some? ==> exists j :: FirstRowFor(role, subjects, j) && subjects[j].0 == r.value by {
        if r.Some? {
          var j :| FirstRowFor(role, subjects[1..], j) && subjects[1..][j].0 == r.value;
          assert FirstRowFor(role, subjects, j + 1);
        }
      }
      r
  }

  /** Both loops of `embed_getter`, roles outside, rows inside: the first
      (role, key) pair, in that order, whose entry matches the role. */
  function FirstMatch(roles: seq<Role>, subjects: Subjects): (r: Option<(Role, string)>)
    ensures r.None? <==> NoMatchIn(roles, subjects)
    ensures r.Some? ==> exists i, j ::
              && 0 <= i < |roles| && roles[i] == r.value.0
              && FirstRowFor(roles[i], subjects, j) && subjects[j].0 == r.value.1
              && NoMatchIn(roles[..i], subjects)
  {
    if roles == [] then None
    else match FirstKey(roles[0], subjects)
      case Some(key) =>
        assert roles[..0] == [];
        Some((roles[0], key))
      case None =>
        var r := FirstMatch(roles[1..], subjects);
        assert forall i :: 1 <= i < |roles| ==> roles[i] == roles[1..][i - 1];
        assert forall i :: 1 <= i <= |roles| ==> roles[..i] == [roles[0]] + roles[1..][..i - 1];
        r
  }

  /** The channels the platform knows: those holding some message. */
  function Channels(posted: Posted): set<nat> {
    set x | x in posted :: x.0
  }

  /** The fetch in `embed_getter` for the matched key, in the order of
      lines 48-49: `int(key)`, the channel, the stored message id, then the
      message itself. */
  function FetchRoster(store: map<string, nat>, posted: Posted, key: string, role: Role): (r: Found)
    ensures r.Match? <==> ParseDecimal(key).Some? && key in store && (ParseDecimal(key).value, store[key]) in posted
    ensures r.Match? ==> r.at == (ParseDecimal(key).value, store[key]) && r.embed == posted[r.at] && r.role == role
    ensures !r.NoMatch?
    ensures r == Failed(MalformedKey(key)) <==> ParseDecimal(key).None?
    ensures (r.Failed? && r.fault.ChannelNotFound?) <==>
              ParseDecimal(key).Some? && ParseDecimal(key).value !in Channels(posted)
    ensures (r.Failed? && r.fault.MissingMessageId?) <==>
              ParseDecimal(key).Some? && ParseDecimal(key).value in Channels(posted) && key !in store
  {
    match ParseDecimal(key)
    case None => Failed(MalformedKey(key))
    case Some(channel) =>
      if channel !in Channels(posted) then Failed(ChannelNotFound(channel))
      else if key !in store then Failed(MissingMessageId(key))
      else if (channel, store[key]) !in posted then Failed(MessageNotFound((channel, store[key])))
      else Match((channel, store[key]), role, posted[(channel, store[key])])
  }

  /** What `embed_getter` returns: nothing is fetched unless some pair
      matches, and then only the roster of the first match is. */
  function Resolve(subjects: Subjects, store: map<string, nat>, posted: Posted, roles: seq<Role>): (r: Found)
    ensures r.NoMatch? <==> NoMatchIn(roles, subjects)
    ensures r.Match? ==> r.at in posted && r.embed == posted[r.at] && r.role in roles
  {
    match FirstMatch(roles, subjects)
    case None => NoMatch
    case Some((role, key)) => FetchRoster(store, posted, key, role)
  }

  /** Lines 64-65: the roles of `a` whose id is not among those of `b`,
      in the order of `a` (set difference, roles compared by id). */
  function Difference(a: seq<Role>, b: seq<Role>): (d: seq<Role>)
    ensures |d| <= |a|
  {
    if a == [] then []
    else (if a[0].id in Ids(b) then [] else [a[0]]) + Difference(a[1..], b)
  }

  /** A role is in the difference exactly when it is in `a` and its id is
      not held by any role of `b`. */
  lemma {:induction false} DifferenceMembers(a: seq<Role>, b: seq<Role>)
    ensures forall r :: r in Difference(a, b) <==> r in a && r.id !in Ids(b)
    decreases |a|
  {
    if a != [] {
      DifferenceMembers(a[1..], b);
      assert a == [a[0]] + a[1..];
    }
  }

  /** The difference is empty exactly when every id of `a` is held by `b`. */
  lemma {:induction false} DifferenceEmpty(a: seq<Role>, b: seq<Role>)
    ensures Difference(a, b) == [] <==> forall k :: 0 <= k < |a| ==> a[k].id in Ids(b)
    decreases |a|
  {
    if a != [] {
      DifferenceEmpty(a[1..], b);
      assert forall k :: 1 <= k < |a| ==> a[k] == a[1..][k - 1];
    }
  }

  /** Added and removed roles never share an id. */
  lemma DifferencesDisjoint(before: seq<Role>, after: seq<Role>)
    ensures forall r, s :: r in Difference(after, before) && s in Difference(before, after) ==> r.id != s.id
  {
    DifferenceMembers(after, before);
    DifferenceMembers(before, after);
    forall r, s | r in Difference(after, before) && s in Difference(before, after)
      ensures r.id != s.id
    {
      var k :| 0 <= k < |before| && before[k] == s;
      assert Ids(before)[k] == s.id;
    }
  }

  /** When both role lists hold the same ids, nothing was added or removed. */
  lemma DifferencesEmptyWhenSameIds(before: seq<Role>, after: seq<Role>)
    requires forall x :: x in Ids(before) <==> x in Ids(after)
    ensures Difference(after, before) == [] && Difference(before, after) == []
  {
    DifferenceEmpty(after, before);
    DifferenceEmpty(before, after);
    forall k | 0 <= k < |after| ensures after[k].id in Ids(before) {
      assert Ids(after)[k] == after[k].id;
    }
    forall k | 0 <= k < |before| ensures before[k].id in Ids(after) {
      assert Ids(before)[k] == before[k].id;
    }
  }

  /** `p2` differs from `p1` at most at `at`, and has the same messages. */
  predicate ChangedOnlyAt(p1: Posted, p2: Posted, at: MessageRef) {
    p2.Keys == p1.Keys && forall x :: x in p1 && x != at ==> p2[x] == p1[x]
  }

  /** One batch of the member-update handler (lines 67-76 for added roles,
      79-90 for removed ones): at most one roster message is rewritten;
      when no pair matches nothing is fetched and nothing changes; a
      matched, non-empty roster gets the patched embed. */
  function Step(subjects: Subjects, store: map<string, nat>, posted: Posted, roles: seq<Role>, p: Patch, memberId: nat): (r: Run)
    ensures exists at :: ChangedOnlyAt(posted, r.posted, at)
    ensures NoMatchIn(roles, subjects) ==> r == Run(posted, None)
    ensures r.fault.Some? ==> r.posted == posted
    ensures var found := Resolve(subjects, store, posted, roles);
            roles != [] && found.Match? && Truthy(found.embed) ==>
              r == Run(posted[found.at := Patched(found.embed, Label(found.role.name), p, Mention(memberId))], None)
    ensures var found := Resolve(subjects, store, posted, roles);
            roles != [] && found.Match? && !Truthy(found.embed) ==> r == Run(posted, None)
    ensures var found := Resolve(subjects, store, posted, roles);
            roles != [] && found.Failed? ==> r == Run(posted, Some(found.fault))
  {
    if roles == [] then
      assert ChangedOnlyAt(posted, posted, (0, 0));
      Run(posted, None)
    else match Resolve(subjects, store, posted, roles)
      case NoMatch =>
        assert ChangedOnlyAt(posted, posted, (0, 0));
        Run(posted, None)
      case Failed(f) =>
        assert ChangedOnlyAt(posted, posted, (0, 0));
        Run(posted, Some(f))
      case Match(at, role, embed) =>
        if Truthy(embed) then
          var r := Run(posted[at := Patched(embed, Label(role.name), p, Mention(memberId))], None);
          assert ChangedOnlyAt(posted, r.posted, at);
          r
        else
          assert ChangedOnlyAt(posted, posted, at);
          Run(posted, None)
  }

  /** Lines 60-90: the whole member-update handler. */
  function HandleUpdate(subjects: Subjects, store: map<string, nat>, posted: Posted,
                        before: seq<Role>, after: seq<Role>, memberId: nat): Run
  {
    if Ids(before) == Ids(after) then Run(posted, None)
    else
      var added := Step(subjects, store, posted, Difference(after, before), Append, memberId);
      if added.fault.Some? then added
      else Step(subjects, store, added.posted, Difference(before, after), Remove, memberId)
  }

  /** `p2` differs from `p1` at most at `a1` and `a2`, and has the same messages. */
  predicate ChangedOnlyAtTwo(p1: Posted, p2: Posted, a1: MessageRef, a2: MessageRef) {
    p2.Keys == p1.Keys && forall x :: x in p1 && x != a1 && x != a2 ==> p2[x] == p1[x]
  }

  /** The handler rewrites at most two roster messages, one per batch, and
      never creates or drops a message. */
  lemma UpdateChangesAtMostTwo(subjects: Subjects, store: map<string, nat>, posted: Posted,
                               before: seq<Role>, after: seq<Role>, memberId: nat)
    ensures exists a1, a2 :: ChangedOnlyAtTwo(posted, HandleUpdate(subjects, store, posted, before, after, memberId).posted, a1, a2)
  {
    var r := HandleUpdate(subjects, store, posted, before, after, memberId);
    if Ids(before) == Ids(after) {
      assert ChangedOnlyAtTwo(posted, r.posted, (0, 0), (0, 0));
    } else {
      var added := Step(subjects, store, posted, Difference(after, before), Append, memberId);
      var a1 :| ChangedOnlyAt(posted, added.posted, a1);
      if added.fault.Some? {
        assert ChangedOnlyAtTwo(posted, r.posted, a1, a1);
      } else {
        var removed := Step(subjects, store, added.posted, Difference(before, after), Remove, memberId);
        assert r == removed;
        var a2 :| ChangedOnlyAt(added.posted, removed.posted, a2);
        assert ChangedOnlyAtTwo(posted, r.posted, a1, a2);
      }
    }
  }

  /** When the role lists hold the same ids in any order, or are equal,
      the handler does nothing. */
  lemma UpdateNoOpOnSameRoles(subjects: Subjects, store: map<string, nat>, posted: Posted,
                              before: seq<Role>, after: seq<Role>, memberId: nat)
    requires forall x :: x in Ids(before) <==> x in Ids(after)
    ensures HandleUpdate(subjects, store, posted, before, after, memberId) == Run(posted, None)
  {
    DifferencesEmptyWhenSameIds(before, after);
  }

  /** With list-valued entries, the shape the pin cog assumes, no role
      ever matches, so the handler never fetches or edits a roster. */
  lemma ListEntriesNeverUpdate(subjects: Subjects, store: map<string, nat>, posted: Posted,
                               before: seq<Role>, after: seq<Role>, memberId: nat)
    requires forall j :: 0 <= j < |subjects| ==> subjects[j].1.Many?
    ensures HandleUpdate(subjects, store, posted, before, after, memberId) == Run(posted, None)
  {
    assert NoMatchIn(Difference(after, before), subjects);
    assert NoMatchIn(Difference(before, after), subjects);
  }

  /** Line 114: the store maps the channel's key to the new message id,
      replacing any earlier id, and keeps every other entry. */
  function Recorded(store: map<string, nat>, channel: nat, messageId: nat): (r: map<string, nat>)
    ensures r.Keys == store.Keys + {Str(channel)}
    ensures r[Str(channel)] == messageId
    ensures forall k :: k in store && k != Str(channel) ==> r[k] == store[k]
  {
    store[Str(channel) := messageId]
  }

  /** The message each stored key names, for keys that are numbers. */
  function StoredRefs(store: map<string, nat>): set<MessageRef> {
    set k | k in store && ParseDecimal(k).Some? :: (ParseDecimal(k).value, store[k])
  }

  /** Every stored key is a number and names a message that exists. */
  predicate AllResolve(store: map<string, nat>, posted: Posted) {
    forall k :: k in store ==> ParseDecimal(k).Some? && (ParseDecimal(k).value, store[k]) in posted
  }

  /** Lines 136-137: the embeds at `refs` get the new description; their
      fields and every other message stay as they were. */
  function Described(posted: Posted, refs: set<MessageRef>, content: string): (r: Posted)
    ensures r.Keys == posted.Keys
    ensures forall x :: x in posted && x in refs ==> r[x].description == content && r[x].fields == posted[x].fields
    ensures forall x :: x in posted && x !in refs ==> r[x] == posted[x]
  {
    map x | x in posted :: if x in refs then posted[x].(description := content) else posted[x]
  }

  /** Taking one more key out of `pending` adds its message to the stored refs. */
  lemma StoredRefsGrow(store: map<string, nat>, pending: set<string>, k: string)
    requires k in pending && pending <= store.Keys && ParseDecimal(k).Some?
    ensures StoredRefs(store - (pending - {k})) == StoredRefs(store - pending) + {(ParseDecimal(k).value, store[k])}
  {
    var small, big := store - pending, store - (pending - {k});
    assert big == small[k := store[k]];
    forall x | x in StoredRefs(big) ensures x in StoredRefs(small) + {(ParseDecimal(k).value, store[k])} {
      var k' :| k' in big && ParseDecimal(k').Some? && x == (ParseDecimal(k').value, big[k']);
      if k' != k {
        assert k' in small;
      }
    }
  }

  /** Describing one more message is the same as updating that message. */
  lemma DescribedGrow(posted: Posted, refs: set<MessageRef>, at: MessageRef, content: string)
    requires at in posted
    ensures var d := Described(posted, refs, content);
            d[at := d[at].(description := content)] == Described(posted, refs + {at}, content)
  {
    var d := Described(posted, refs, content);
    var lhs, rhs := d[at := d[at].(description := content)], Described(posted, refs + {at}, content);
    assert lhs.Keys == rhs.Keys;
    forall x | x in lhs.Keys ensures lhs[x] == rhs[x] {
      if x == at {
        assert lhs[x] == posted[x].(description := content);
      }
    }
  }

  /** The difference of a concatenation is the concatenation of the differences. */
  lemma {:induction false} DifferenceConcat(a1: seq<Role>, a2: seq<Role>, b: seq<Role>)
    ensures Difference(a1 + a2, b) == Difference(a1, b) + Difference(a2, b)
    decreases |a1|
  {
    if a1 == [] {
      assert a1 + a2 == a2;
    } else {
      var x, rest := a1[0], a1[1..];
      assert a1 == [x] + rest;
      assert a1 + a2 == [x] + (rest + a2);
      DifferenceCons(x, rest, b);
      DifferenceCons(x, rest + a2, b);
      DifferenceConcat(rest, a2, b);
    }
  }

  /** One step of `Difference`, stated on a sequence built from its head. */
  lemma DifferenceCons(x: Role, rest: seq<Role>, b: seq<Role>)
    ensures Difference([x] + rest, b) == (if x.id in Ids(b) then [] else [x]) + Difference(rest, b)
  {
    assert ([x] + rest)[1..] == rest;
  }

  /** Gaining one new role adds exactly that role; losing it removes exactly it. */
  lemma GainedRole(roles: seq<Role>, role: Role)
    requires role.id !in Ids(roles)
    ensures Difference(roles + [role], roles) == [role]
    ensures Difference(roles, roles + [role]) == []
    ensures Ids(roles) != Ids(roles + [role])
  {
    forall k | 0 <= k < |roles| ensures roles[k].id in Ids(roles) {
      assert Ids(roles)[k] == roles[k].id;
    }
    forall k | 0 <= k < |roles| ensures roles[k].id in Ids(roles + [role]) {
      assert Ids(roles + [role])[k] == roles[k].id;
    }
    DifferenceEmpty(roles, roles);
    DifferenceEmpty(roles, roles + [role]);
    DifferenceConcat(roles, [role], roles);
    assert Difference([role], roles) == [role] by {
      assert [role][1..] == [];
    }
  }

  /** A batch for a role whose first matching row in the table is the row
      of channel `c` patches the roster stored for `c`, whatever the other
      rows say. */
  lemma StepOnRoster(c: nat, role: Role, subjects: Subjects, store: map<string, nat>, posted: Posted,
                     p: Patch, memberId: nat)
    requires FirstKey(role, subjects) == Some(Str(c))
    requires Str(c) in store && (c, store[Str(c)]) in posted && Truthy(posted[(c, store[Str(c)])])
    ensures var at := (c, store[Str(c)]);
            Step(subjects, store, posted, [role], p, memberId)
              == Run(posted[at := Patched(posted[at], Label(role.name), p, Mention(memberId))], None)
  {
    ParseStr(c);
    assert FirstMatch([role], subjects) == Some((role, Str(c)));
  }

  /** Gaining one new role is a single append batch, and losing it again
      a single remove batch. */
  lemma UpdateOnOneRole(subjects: Subjects, store: map<string, nat>, posted: Posted,
                        roles: seq<Role>, role: Role, memberId: nat)
    requires role.id !in Ids(roles)
    ensures HandleUpdate(subjects, store, posted, roles, roles + [role], memberId)
              == Step(subjects, store, posted, [role], Append, memberId)
    ensures HandleUpdate(subjects, store, posted, roles + [role], roles, memberId)
              == Step(subjects, store, posted, [role], Remove, memberId)
  {
    GainedRole(roles, role);
  }

  /** Gaining (`Append`) or losing (`Remove`) a role whose first matching
      row is channel `c`'s patches the roster stored for `c` and nothing else. */
  lemma OneRoleBatch(c: nat, role: Role, subjects: Subjects, store: map<string, nat>, posted: Posted,
                     roles: seq<Role>, p: Patch, memberId: nat)
    requires role.id !in Ids(roles)
    requires FirstKey(role, subjects) == Some(Str(c))
    requires Str(c) in store && (c, store[Str(c)]) in posted && Truthy(posted[(c, store[Str(c)])])
    ensures var at := (c, store[Str(c)]);
            var r := Run(posted[at := Patched(posted[at], Label(role.name), p, Mention(memberId))], None);
            && (p == Append ==> HandleUpdate(subjects, store, posted, roles, roles + [role], memberId) == r)
            && (p == Remove ==> HandleUpdate(subjects, store, posted, roles + [role], roles, memberId) == r)
  {
    UpdateOnOneRole(subjects, store, posted, roles, role, memberId);
    StepOnRoster(c, role, subjects, store, posted, p, memberId);
  }

  /** A member gains a role whose first matching row is channel `c`'s and
      loses it again: the roster stored for `c` is patched with the mention
      and then comes back with its fields inline, provided the mention was
      not listed. */
  lemma GainThenLose(c: nat, role: Role, subjects: Subjects, store: map<string, nat>, posted: Posted,
                     roles: seq<Role>, memberId: nat)
    requires role.id !in Ids(roles)
    requires FirstKey(role, subjects) == Some(Str(c))
    requires Str(c) in store && (c, store[Str(c)]) in posted && Truthy(posted[(c, store[Str(c)])])
    requires var e := posted[(c, store[Str(c)])];
             forall i :: 0 <= i < |e.fields| && e.fields[i].name == Label(role.name) ==>
               Mention(memberId) !in Split(e.fields[i].value)
    ensures var at := (c, store[Str(c)]);
            var gained := HandleUpdate(subjects, store, posted, roles, roles + [role], memberId);
            && gained == Run(posted[at := Patched(posted[at], Label(role.name), Append, Mention(memberId))], None)
            && HandleUpdate(subjects, store, gained.posted, roles + [role], roles, memberId)
                 == Run(posted[at := Inlined(posted[at])], None)
  {
    OneRoleBatch(c, role, subjects, store, posted, roles, Append, memberId);
    LoseAfterGain(c, role, subjects, store, posted, roles, memberId);
  }

  /** The second half of `GainThenLose`: losing the role just gained takes
      the mention out again. */
  lemma LoseAfterGain(c: nat, role: Role, subjects: Subjects, store: map<string, nat>, posted: Posted,
                      roles: seq<Role>, memberId: nat)
    requires role.id !in Ids(roles)
    requires FirstKey(role, subjects) == Some(Str(c))
    requires Str(c) in store && (c, store[Str(c)]) in posted && Truthy(posted[(c, store[Str(c)])])
    requires var e := posted[(c, store[Str(c)])];
             forall i :: 0 <= i < |e.fields| && e.fields[i].name == Label(role.name) ==>
               Mention(memberId) !in Split(e.fields[i].value)
    ensures var at := (c, store[Str(c)]);
            var afterGain := posted[at := Patched(posted[at], Label(role.name), Append, Mention(memberId))];
            HandleUpdate(subjects, store, afterGain, roles + [role], roles, memberId)
              == Run(posted[at := Inlined(posted[at])], None)
  {
    var at := (c, store[Str(c)]);
    var once := Patched(posted[at], Label(role.name), Append, Mention(memberId));
    var afterGain := posted[at := once];
    assert afterGain[at] == once;
    OneRoleBatch(c, role, subjects, store, afterGain, roles, Remove, memberId);
    RoundTrip(posted[at], Label(role.name), memberId);
    assert afterGain[at := Inlined(posted[at])] == posted[at := Inlined(posted[at])];
  }

  /** End to end: `create` posts for channel `c` a roster with one field
      per given role and records it; the role at position `k` has channel
      `c`'s row as its first match. A member not listed under that role's
      label gains the role, and the handler adds the member as one more
      line of field `k`; the member loses the role again, and the roster
      is back to what `create` sent, except that its fields are now inline. */
  lemma CreateGainLose(c: nat, sentId: nat, description: string, helperRoles: seq<Role>, k: nat,
                       members: seq<Member>, memberId: nat, roles: seq<Role>,
                       subjects: Subjects, store: map<string, nat>, posted: Posted)
    requires k < |helperRoles|
    requires helperRoles[k].id !in Ids(roles)
    requires FirstKey(helperRoles[k], subjects) == Some(Str(c))
    requires forall j :: 0 <= j < |helperRoles| && helperRoles[j].name == helperRoles[k].name ==>
               Mention(memberId) !in HolderMentions(helperRoles[j], members)
    ensures var role := helperRoles[k];
            var store' := Recorded(store, c, sentId);
            var roster := RosterEmbedOf(description, helperRoles, members);
            var created := posted[(c, sentId) := roster];
            var gained := HandleUpdate(subjects, store', created, roles, roles + [role], memberId);
            var lost := HandleUpdate(subjects, store', gained.posted, roles + [role], roles, memberId);
            && gained.fault.None? && (c, sentId) in gained.posted
            && |gained.posted[(c, sentId)].fields| == |roster.fields| == |helperRoles|
            && Split(gained.posted[(c, sentId)].fields[k].value) == Split(roster.fields[k].value) + [Mention(memberId)]
            && lost == Run(created[(c, sentId) := Inlined(roster)], None)
  {
    var role := helperRoles[k];
    var heading, m := Label(role.name), Mention(memberId);
    var store' := Recorded(store, c, sentId);
    var roster := RosterEmbedOf(description, helperRoles, members);
    var created := posted[(c, sentId) := roster];
    assert store'[Str(c)] == sentId;
    assert created[(c, sentId)] == roster;
    assert Truthy(roster) by {
      assert roster.fields[k] in roster.fields;
    }
    forall j | 0 <= j < |roster.fields| && roster.fields[j].name == heading
      ensures m !in Split(roster.fields[j].value)
    {
      assert "**" + helperRoles[j].name + "**" == "**" + role.name + "**";
      assert helperRoles[j].name == ("**" + helperRoles[j].name + "**")[2..|helperRoles[j].name| + 2];
      assert role.name == ("**" + role.name + "**")[2..|role.name| + 2];
      RosterLines(helperRoles[j], members);
      assert roster.fields[j] == RosterField(helperRoles[j], members);
    }
    GainThenLose(c, role, subjects, store', created, roles, memberId);
    AppendAddsLine(roster, heading, m, k);
  }

  /** The roster cog: the `subjects` table it reads and the
      `helpermessages` store (channel key to roster message id) it keeps. */
  class Helpermessage {
    const subjects: Subjects
    var helpermessages: map<string, nat>

    constructor (subjects: Subjects, helpermessages: map<string, nat>)
      ensures this.subjects == subjects && this.helpermessages == helpermessages
    {
      this.subjects := subjects;
      this.helpermessages := helpermessages;
    }

    /** Lines 38-52: nested loops with an early return on the first match. */
    method EmbedGetter(edited: seq<Role>, posted: Posted) returns (r: Found)
      ensures r == Resolve(subjects, helpermessages, posted, edited)
    {
      var i := 0;
      while i < |edited|
        invariant 0 <= i <= |edited|
        invariant FirstMatch(edited, subjects) == FirstMatch(edited[i..], subjects)
      {
        var role := edited[i];
        var j := 0;
        while j < |subjects|
          invariant 0 <= j <= |subjects|
          invariant FirstKey(role, subjects) == FirstKey(role, subjects[j..])
        {
          var (key, entry) := subjects[j];
          if EntryMatches(role, entry) {
            assert FirstKey(role, subjects) == Some(key);
            assert FirstMatch(edited[i..], subjects) == Some((role, key));
            r := FetchRoster(helpermessages, posted, key, role);
            return;
          }
          assert subjects[j..][1..] == subjects[j + 1..];
          j := j + 1;
        }
        assert edited[i..][1..] == edited[i + 1..];
        i := i + 1;
      }
      assert edited[i..] == [];
      r := NoMatch;
    }

    /** One batch of `on_member_update`: find the roster, rebuild its
      embed with the patch, write it back. */
    method PatchRoster(roles: seq<Role>, p: Patch, memberId: nat, posted: Posted) returns (r: Run)
      ensures r == Step(subjects, helpermessages, posted, roles, p, memberId)
    {
      r := Run(posted, None);
      if roles != [] {
        var found := EmbedGetter(roles, posted);
        match found
        case NoMatch =>
        case Failed(f) =>
          r := Run(posted, Some(f));
        case Match(at, role, embed) =>
          if Truthy(embed) {
            var patched := Rebuild(embed, Label(role.name), p, Mention(memberId));
            r := Run(posted[at := patched], None);
          }
      }
    }

    /** Lines 55-90: diff the role lists, then patch for the added roles
      and for the removed roles; an exception in the first batch ends the
      handler before the second. */
    method OnMemberUpdate(before: seq<Role>, after: seq<Role>, memberId: nat, posted: Posted) returns (r: Run)
      ensures r == HandleUpdate(subjects, helpermessages, posted, before, after, memberId)
    {
      r := Run(posted, None);
      if Ids(before) != Ids(after) {
        var added := Difference(after, before);
        var removed := Difference(before, after);
        r := PatchRoster(added, Append, memberId, posted);
        if r.fault.None? {
          r := PatchRoster(removed, Remove, memberId, r.posted);
        }
      }
    }

    /** Lines 98-116: build one field per role, send the embed to the
      channel as message `sentId`, and record it under the channel's key. */
    method Create(channel: nat, channelName: string, helperRoles: seq<Role>, members: seq<Member>,
                  sentId: nat, posted: Posted) returns (posted': Posted)
      modifies this
      ensures helpermessages == Recorded(old(helpermessages), channel, sentId)
      ensures posted' == posted[(channel, sentId) := RosterEmbedOf(CreateDescription(RosterPreamble, channelName), helperRoles, members)]
    {
      var embed := BuildRoster(CreateDescription(RosterPreamble, channelName), helperRoles, members);
      posted' := posted[(channel, sentId) := embed];
      helpermessages := helpermessages[Str(channel) := sentId];
    }

    /** Lines 123-126: only looks the key up, and replies when it is missing. */
    method Delete(channel: nat) returns (reply: Option<string>)
      ensures reply.None? <==> Str(channel) in helpermessages
      ensures reply.Some? ==> reply.value == MissingRosterReply
    {
      if Str(channel) in helpermessages {
        reply := None;
      } else {
        reply := Some(MissingRosterReply);
      }
    }

    /** Lines 133-139: set the description of every stored roster. When
      every key resolves, every stored roster gets `content` and the
      confirmation is sent; otherwise the loop stops at the first key that
      does not resolve, having rewritten some of the rosters. */
    method Edit(content: string, posted: Posted) returns (r: Run, confirmed: bool)
      ensures confirmed <==> r.fault.None?
      ensures AllResolve(helpermessages, posted) <==> r.fault.None?
      ensures r.fault.None? ==> r.posted == Described(posted, StoredRefs(helpermessages), content)
      ensures r.posted.Keys == posted.Keys
      ensures forall x :: x in posted ==>
                r.posted[x] == posted[x] ||
                (x in StoredRefs(helpermessages) && r.posted[x] == posted[x].(description := content))
    {
      var keys := helpermessages.Keys;
      var cur := posted;
      while keys != {}
        invariant keys <= helpermessages.Keys
        invariant forall k :: k in helpermessages && k !in keys ==>
                    ParseDecimal(k).Some? && (ParseDecimal(k).value, helpermessages[k]) in posted
        invariant cur == Described(posted, StoredRefs(helpermessages - keys), content)
        decreases keys
      {
        var k :| k in keys;
        var channel := ParseDecimal(k);
        if channel.None? {
          return Run(cur, Some(MalformedKey(k))), false;
        }
        if channel.value !in Channels(cur) {
          return Run(cur, Some(ChannelNotFound(channel.value))), false;
        }
        var at := (channel.value, helpermessages[k]);
        if at !in cur {
          return Run(cur, Some(MessageNotFound(at))), false;
        }
        StoredRefsGrow(helpermessages, keys, k);
        DescribedGrow(posted, StoredRefs(helpermessages - keys), at, content);
        cur := cur[at := cur[at].(description := content)];
        keys := keys - {k};
      }
      assert helpermessages - keys == helpermessages;
      r, confirmed := Run(cur, None), true;
    }
  }
}
