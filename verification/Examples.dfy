/** A small keyring to show failing inputs with. */
module Examples {
  import opened Basics
  import opened Paths
  import opened Keys

  function ExampleEntry(mark: byte): Entry { Entry(seq(8, _ => mark), 0, seq(32, _ => mark)) }

  /** One scope, "a", owning "a/". */
  function ExampleScope(nameKeys: seq<Entry>, keks: seq<Entry>): Scope {
    Scope(Ascii("a"), Ascii("a/"), 0, [], Lists(nameKeys, keks))
  }

  function ExampleKeyring(nameKeys: seq<Entry>, keks: seq<Entry>): Keyring {
    Keyring(Lists(nameKeys, keks), [ExampleScope(nameKeys, keks)])
  }

  lemma ExampleIsValid(nameKeys: seq<Entry>, keks: seq<Entry>)
    requires ValidEntries(nameKeys) && nameKeys != [] && ValidEntries(keks) && keks != []
    ensures ValidScope(ExampleScope(nameKeys, keks)) && ValidKeyring(ExampleKeyring(nameKeys, keks))
  {
    SplitFree(Ascii("a"), SLASH);
    assert Ascii("a/")[..1] == Ascii("a");
    assert ValidKey(Ascii("a"));
  }

  /** Entries with different marks differ in id and material. */
  lemma MarksDiffer(m: byte, n: byte)
    requires m != n
    ensures ExampleEntry(m).id != ExampleEntry(n).id && ExampleEntry(m).key != ExampleEntry(n).key
  {
    assert ExampleEntry(m).id[0] == m && ExampleEntry(n).id[0] == n;
    assert ExampleEntry(m).key[0] == m && ExampleEntry(n).key[0] == n;
  }
}
