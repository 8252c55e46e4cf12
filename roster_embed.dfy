/** The one document shape the roster cog manages: an embed with a
    description and one field per tracked role, labelled `**<role name>**`,
    whose value lists the mentions of the members holding that role, one
    per line. Here are the pure parts of `cogs/helpermessage.py` that build
    and patch that document. */
module RosterEmbed {

  import opened Text

  /** A role; the platform compares roles by id alone. */
  datatype Role = Role(id: nat, name: string)

  /** A guild member and the roles it holds. */
  datatype Member = Member(id: nat, roles: seq<Role>)

  /** An embed field; `inline` is the flag `add_field` takes (default true). */
  datatype Field = Field(name: string, value: string, inline: bool)

  /** The part of an embed the cog reads and writes. */
  datatype Embed = Embed(description: string, fields: seq<Field>)

  /** The ids of a list of roles, in order. */
  function Ids(roles: seq<Role>): (ids: seq<nat>)
    ensures |ids| == |roles|
    ensures forall i :: 0 <= i < |roles| ==> ids[i] == roles[i].id
  {
    seq(|roles|, i requires 0 <= i < |roles| => roles[i].id)
  }

  /** `role in member.roles`, which compares by id. */
  predicate Holds(member: Member, role: Role) {
    role.id in Ids(member.roles)
  }

  /** `member.mention`: `<@id>`. It is never empty and never spans lines. */
  function Mention(memberId: nat): (m: string)
    ensures m != "" && Newline !in m
  {
    var digits := Str(memberId);
    assert forall i :: 0 <= i < |digits| ==> digits[i] != Newline;
    "<@" + digits + ">"
  }

  /** The label of the field that lists a role's holders. */
  function Label(roleName: string): string {
    "**" + roleName + "**"
  }

  /** Python truthiness of an embed: it is falsy when it carries nothing,
      here when the description is empty and there are no fields. */
  predicate Truthy(e: Embed) {
    e.description != "" || e.fields != []
  }

  /** The two edits the member-update handler makes to a roster field. */
  datatype Patch = Append | Remove

  /** `[line for line in lines if line != mention]`. */
  function DropLine(lines: seq<string>, mention: string): (r: seq<string>)
    ensures |r| <= |lines|
    ensures forall l :: l in r <==> l in lines && l != mention
  {
    if lines == [] then []
    else (if lines[0] == mention then [] else [lines[0]]) + DropLine(lines[1..], mention)
  }

  /** Dropping a line that is not there changes nothing. */
  lemma {:induction false} DropAbsentLine(lines: seq<string>, mention: string)
    requires mention !in lines
    ensures DropLine(lines, mention) == lines
  {
    if lines != [] {
      DropAbsentLine(lines[1..], mention);
      assert lines == [lines[0]] + lines[1..];
    }
  }

  /** Dropping distributes over concatenation. */
  lemma {:induction false} DropLineConcat(a: seq<string>, b: seq<string>, mention: string)
    ensures DropLine(a + b, mention) == DropLine(a, mention) + DropLine(b, mention)
  {
    if a != [] {
      assert (a + b)[0] == a[0];
      assert (a + b)[1..] == a[1..] + b;
      DropLineConcat(a[1..], b, mention);
    } else {
      assert a + b == b;
    }
  }

  /** The new value of the target field: the append of line 73, or the
      split, filter and join of lines 85-87. */
  function PatchValue(p: Patch, value: string, mention: string): string {
    match p
    case Append => value + [Newline] + mention
    case Remove => Join(DropLine(Split(value), mention))
  }

  /** One field of the rebuilt embed. `add_field` is called without
      `inline`, so every rebuilt field is inline. */
  function PatchField(f: Field, target: string, p: Patch, mention: string): Field {
    Field(f.name, if f.name == target then PatchValue(p, f.value, mention) else f.value, true)
  }

  /** The embed the handler writes back: same description, same fields in
      the same order under the same names; every field labelled `target`
      has its value patched, every other field keeps its value. */
  function Patched(e: Embed, target: string, p: Patch, mention: string): (r: Embed)
    ensures r.description == e.description
    ensures |r.fields| == |e.fields|
    ensures forall i :: 0 <= i < |e.fields| ==> r.fields[i].name == e.fields[i].name && r.fields[i].inline
    ensures forall i :: 0 <= i < |e.fields| && e.fields[i].name != target ==> r.fields[i].value == e.fields[i].value
    ensures forall i :: 0 <= i < |e.fields| && e.fields[i].name == target ==>
              r.fields[i].value == PatchValue(p, e.fields[i].value, mention)
  {
    Embed(e.description, seq(|e.fields|, i requires 0 <= i < |e.fields| => PatchField(e.fields[i], target, p, mention)))
  }

  /** Every field of `e` made inline, nothing else changed. */
  function Inlined(e: Embed): (r: Embed)
    ensures r.description == e.description && |r.fields| == |e.fields|
    ensures forall i :: 0 <= i < |e.fields| ==> r.fields[i] == e.fields[i].(inline := true)
  {
    Embed(e.description, seq(|e.fields|, i requires 0 <= i < |e.fields| => e.fields[i].(inline := true)))
  }

  /** Lines 70-75 and 82-89: `new_embed` is grown one `add_field` at a time
      while walking the fields of the fetched embed. */
  method Rebuild(e: Embed, target: string, p: Patch, mention: string) returns (r: Embed)
    ensures r == Patched(e, target, p, mention)
  {
    var fields: seq<Field> := [];
    var i := 0;
    while i < |e.fields|
      invariant 0 <= i <= |e.fields|
      invariant fields == Patched(e, target, p, mention).fields[..i]
    {
      var f := e.fields[i];
      if f.name == target {
        fields := fields + [Field(f.name, PatchValue(p, f.value, mention), true)];
      } else {
        fields := fields + [Field(f.name, f.value, true)];
      }
      i := i + 1;
    }
    r := Embed(e.description, fields);
  }

  /** Appending adds the mention as exactly one more line. */
  lemma AppendAddsLine(e: Embed, target: string, mention: string, i: nat)
    requires Newline !in mention
    requires i < |e.fields| && e.fields[i].name == target
    ensures Split(Patched(e, target, Append, mention).fields[i].value) == Split(e.fields[i].value) + [mention]
  {
    SplitAppended(e.fields[i].value, mention);
  }

  /** When no field is labelled `target`, appending or removing changes no
      name and no value (only the inline flags), and an embed whose fields
      are already inline comes back equal. */
  lemma UnlabelledUnchanged(e: Embed, target: string, p: Patch, mention: string)
    requires forall i :: 0 <= i < |e.fields| ==> e.fields[i].name != target
    ensures Patched(e, target, p, mention) == Inlined(e)
    ensures (forall i :: 0 <= i < |e.fields| ==> e.fields[i].inline) ==> Patched(e, target, p, mention) == e
  {
    var r := Patched(e, target, p, mention);
    assert r.fields == Inlined(e).fields;
    if forall i :: 0 <= i < |e.fields| ==> e.fields[i].inline {
      assert r.fields == e.fields;
    }
  }

  /** The append is not idempotent: a second append adds a second copy of
      the mention line. */
  lemma AppendTwiceDuplicates(e: Embed, target: string, mention: string, i: nat)
    requires Newline !in mention
    requires i < |e.fields| && e.fields[i].name == target
    ensures Split(Patched(Patched(e, target, Append, mention), target, Append, mention).fields[i].value)
            == Split(e.fields[i].value) + [mention, mention]
    ensures Patched(Patched(e, target, Append, mention), target, Append, mention) != Patched(e, target, Append, mention)
  {
    var once := Patched(e, target, Append, mention);
    var twice := Patched(once, target, Append, mention);
    AppendAddsLine(e, target, mention, i);
    AppendAddsLine(once, target, mention, i);
    assert Split(twice.fields[i].value) == Split(e.fields[i].value) + [mention] + [mention];
    assert |twice.fields[i].value| > |once.fields[i].value|;
  }

  /** After a removal the target field's lines are the old lines without
      the mention, in order; `"".split('\n')` gives one empty line when
      nothing is left. So the mention is no longer a line. */
  lemma RemoveDropsMention(e: Embed, target: string, mention: string, i: nat)
    requires mention != ""
    requires i < |e.fields| && e.fields[i].name == target
    ensures var kept := DropLine(Split(e.fields[i].value), mention);
            Split(Patched(e, target, Remove, mention).fields[i].value) == (if kept == [] then [""] else kept)
    ensures mention !in Split(Patched(e, target, Remove, mention).fields[i].value)
  {
    var kept := DropLine(Split(e.fields[i].value), mention);
    if kept != [] {
      forall k | 0 <= k < |kept| ensures Newline !in kept[k] {
        assert kept[k] in Split(e.fields[i].value);
      }
      SplitJoin(kept);
    }
  }

  /** Removing a mention that was just appended restores the value, when
      the mention is newline-free and was not already a line. */
  lemma {:induction false} RemoveAfterAppend(v: string, mention: string)
    requires Newline !in mention
    requires mention !in Split(v)
    ensures PatchValue(Remove, PatchValue(Append, v, mention), mention) == v
  {
    SplitAppended(v, mention);
    DropLineConcat(Split(v), [mention], mention);
    assert DropLine([mention], mention) == [];
    DropAbsentLine(Split(v), mention);
    assert Split(v) + [] == Split(v);
    JoinSplit(v);
  }

  /** The round trip on a whole roster: appending a member who is not yet
      listed and then removing it gives the original embed back, except
      that every field is now inline. */
  lemma RoundTrip(e: Embed, target: string, memberId: nat)
    requires forall i :: 0 <= i < |e.fields| && e.fields[i].name == target ==>
               Mention(memberId) !in Split(e.fields[i].value)
    ensures Patched(Patched(e, target, Append, Mention(memberId)), target, Remove, Mention(memberId)) == Inlined(e)
  {
    var m := Mention(memberId);
    var r := Patched(Patched(e, target, Append, m), target, Remove, m);
    forall i | 0 <= i < |e.fields| ensures r.fields[i] == Inlined(e).fields[i] {
      if e.fields[i].name == target {
        RemoveAfterAppend(e.fields[i].value, m);
      }
    }
    assert r.fields == Inlined(e).fields;
  }

  /** `[member.mention for member in guild.members if role in member.roles]`:
      the mentions of the holders of `role`, in guild order. */
  function HolderMentions(role: Role, members: seq<Member>): (r: seq<string>)
    ensures |r| <= |members|
    ensures forall k :: 0 <= k < |members| && Holds(members[k], role) ==> Mention(members[k].id) in r
    ensures forall x :: x in r ==> exists k :: 0 <= k < |members| && Holds(members[k], role) && x == Mention(members[k].id)
  {
    if members == [] then []
    else
      var rest := HolderMentions(role, members[1..]);
      assert forall k :: 1 <= k < |members| ==> members[k] == members[1..][k - 1];
      (if Holds(members[0], role) then [Mention(members[0].id)] else []) + rest
  }

  /** A single member contributes its mention exactly when it holds the role. */
  lemma HolderMentionsOne(role: Role, m: Member)
    ensures HolderMentions(role, [m]) == if Holds(m, role) then [Mention(m.id)] else []
  {
    assert [m][1..] == [];
  }

  /** The holders of a concatenation are those of the first part, then
      those of the second, so each holder appears once and in guild order. */
  lemma {:induction false} HolderMentionsConcat(role: Role, a: seq<Member>, b: seq<Member>)
    ensures HolderMentions(role, a + b) == HolderMentions(role, a) + HolderMentions(role, b)
    decreases |a|
  {
    if a == [] {
      assert a + b == b;
    } else {
      assert (a + b)[0] == a[0];
      assert (a + b)[1..] == a[1..] + b;
      HolderMentionsConcat(role, a[1..], b);
    }
  }

  /** Lines 103-107: the field listing one role's holders. */
  function RosterField(role: Role, members: seq<Member>): Field {
    Field(Label(role.name), Join(HolderMentions(role, members)), false)
  }

  /** The embed `create` sends: the description and exactly one field per
      given role, in the given order, labelled with the role's name, whose
      value joins the mentions of that role's holders, not inline. */
  function RosterEmbedOf(description: string, roles: seq<Role>, members: seq<Member>): (e: Embed)
    ensures e.description == description
    ensures |e.fields| == |roles|
    ensures forall i :: 0 <= i < |roles| ==>
              && e.fields[i].name == Label(roles[i].name)
              && e.fields[i].value == Join(HolderMentions(roles[i], members))
              && !e.fields[i].inline
  {
    Embed(description, seq(|roles|, i requires 0 <= i < |roles| => RosterField(roles[i], members)))
  }

  /** Lines 99-107: one `add_field` per role. */
  method BuildRoster(description: string, roles: seq<Role>, members: seq<Member>) returns (e: Embed)
    ensures e == RosterEmbedOf(description, roles, members)
  {
    var fields: seq<Field> := [];
    var i := 0;
    while i < |roles|
      invariant 0 <= i <= |roles|
      invariant fields == RosterEmbedOf(description, roles, members).fields[..i]
    {
      var role := roles[i];
      var helpers := HolderMentions(role, members);
      fields := fields + [Field(Label(role.name), Join(helpers), false)];
      i := i + 1;
    }
    e := Embed(description, fields);
  }

  /** A freshly built roster field lists, one per line, exactly the
      holders' mentions (a role nobody holds gives one empty line). */
  lemma RosterLines(role: Role, members: seq<Member>)
    ensures var ms := HolderMentions(role, members);
            Split(RosterField(role, members).value) == (if ms == [] then [""] else ms)
  {
    var ms := HolderMentions(role, members);
    if ms != [] {
      forall k | 0 <= k < |ms| ensures Newline !in ms[k] {
        assert ms[k] in ms;
      }
      SplitJoin(ms);
    }
  }
}
