/** The `subjects` table of the bot's configuration file, shared by the
    roster cog and the pin cog: it maps a channel key (the channel id
    written as a string) to the helper role configured for that channel.
    The code is not consistent about the shape of a value: one place
    treats it as a list of role ids, others as a single id. Both shapes
    are admitted here. */
module Config {

  import opened Wrappers

  /** One value of the `subjects` table: a single role id or a list of them. */
  datatype Entry = One(id: nat) | Many(ids: seq<nat>)

  /** The `subjects` table in file order (a TOML table keeps its order). */
  type Subjects = seq<(string, Entry)>

  /** The keys of a table, in order (`subjects.keys()`). */
  function Keys(subjects: Subjects): (keys: seq<string>)
    ensures |keys| == |subjects|
    ensures forall i :: 0 <= i < |subjects| ==> keys[i] == subjects[i].0
  {
    seq(|subjects|, i requires 0 <= i < |subjects| => subjects[i].0)
  }

  /** The values of a table, in order (`[subjects[c] for c in subjects.keys()]`). */
  function Entries(subjects: Subjects): (entries: seq<Entry>)
    ensures |entries| == |subjects|
    ensures forall i :: 0 <= i < |subjects| ==> entries[i] == subjects[i].1
  {
    seq(|subjects|, i requires 0 <= i < |subjects| => subjects[i].1)
  }

  /** `subjects[key]`; `None` stands for the `KeyError`. The entry found is
      the one stored under `key`. */
  function EntryOf(subjects: Subjects, key: string): (r: Option<Entry>)
    ensures r.None? <==> key !in Keys(subjects)
    ensures r.Some? ==> exists i :: 0 <= i < |subjects| && subjects[i] == (key, r.value)
  {
    if subjects == [] then None
    else if subjects[0].0 == key then Some(subjects[0].1)
    else
      var r := EntryOf(subjects[1..], key);
      assert Keys(subjects) == [subjects[0].0] + Keys(subjects[1..]);
      assert r.Some? ==> exists i :: 0 <= i < |subjects[1..]| && subjects[1..][i] == (key, r.value);
      r
  }
}
