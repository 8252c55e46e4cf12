/** The two computations of `cogs/dev.py` that are not calls into the
    framework: the extension-name converter and the success count of
    `sync` over explicit guilds. */
module Dev {

  import opened Text

  const CogsPrefix := "cogs."

  /** Lines 17-24: strip the argument and prefix it with `cogs.` unless it
      already starts so. */
  function ExtConverter(argument: string): (r: string)
    ensures StartsWith(r, CogsPrefix)
    ensures StartsWith(Strip(argument), CogsPrefix) ==> r == Strip(argument)
    ensures !StartsWith(Strip(argument), CogsPrefix) ==> r == CogsPrefix + Strip(argument)
    ensures !IsSpace(r[0]) && !IsSpace(r[|r| - 1])
  {
    var stripped := Strip(argument);
    if StartsWith(stripped, CogsPrefix) then stripped
    else
      assert (CogsPrefix + stripped)[..|CogsPrefix|] == CogsPrefix;
      assert stripped != [] ==> (CogsPrefix + stripped)[|CogsPrefix| + |stripped| - 1] == stripped[|stripped| - 1];
      CogsPrefix + stripped
  }

  /** Converting a converted name changes nothing. */
  lemma ExtConverterIdempotent(argument: string)
    ensures ExtConverter(ExtConverter(argument)) == ExtConverter(argument)
  {
    var r := ExtConverter(argument);
    StripTrimmed(r);
  }

  /** Lines 100-107: count the guilds whose sync did not raise; `synced[i]`
      says whether the sync of the i-th given guild succeeded. */
  method SyncCount(synced: seq<bool>) returns (ret: nat)
    ensures ret == multiset(synced)[true]
    ensures ret <= |synced|
  {
    ret := 0;
    var i := 0;
    while i < |synced|
      invariant 0 <= i <= |synced|
      invariant ret == multiset(synced[..i])[true]
      invariant ret <= i
    {
      assert synced[..i + 1] == synced[..i] + [synced[i]];
      if synced[i] {
        ret := ret + 1;
      }
      i := i + 1;
    }
    assert synced[..i] == synced;
  }
}
