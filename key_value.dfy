/**
 * The fold shared by the two `key=value` line readers (terrable_build.go and
 * readEnvFile in offline/offline.go): each line may yield one entry, and an
 * entry from a later line overwrites one from an earlier line with the same
 * key. The readers differ only in which lines yield an entry.
 */
module KeyValue {

  import opened Wrappers

  /** The map built from `lines` in order, as a loop over the lines builds it. */
  function Collect(lines: seq<string>, entry: string -> Option<(string, string)>): map<string, string> {
    if lines == [] then map[]
    else
      var m := Collect(lines[..|lines| - 1], entry);
      match entry(lines[|lines| - 1])
      case None => m
      case Some(kv) => m[kv.0 := kv.1]
  }

  /** One more line: its entry, if any, is added over the map so far. */
  lemma CollectStep(lines: seq<string>, entry: string -> Option<(string, string)>, i: nat)
    requires i < |lines|
    ensures Collect(lines[..i + 1], entry) ==
      match entry(lines[i])
      case None => Collect(lines[..i], entry)
      case Some(kv) => Collect(lines[..i], entry)[kv.0 := kv.1]
  {
    assert lines[..i + 1][..i] == lines[..i];
  }

  /** Line `line` yields an entry for key `k`. */
  predicate Defines(line: string, entry: string -> Option<(string, string)>, k: string) {
    entry(line).Some? && entry(line).value.0 == k
  }

  /** A key is in the result exactly when some line yields an entry for it. */
  lemma {:induction false} CollectKeys(lines: seq<string>, entry: string -> Option<(string, string)>, k: string)
    ensures k in Collect(lines, entry) <==> exists i :: 0 <= i < |lines| && Defines(lines[i], entry, k)
  {
    if lines != [] {
      var init := lines[..|lines| - 1];
      CollectKeys(init, entry, k);
      if k in Collect(lines, entry) && !Defines(lines[|lines| - 1], entry, k) {
        var i :| 0 <= i < |init| && Defines(init[i], entry, k);
        assert lines[i] == init[i];
      }
      if exists i :: 0 <= i < |lines| && Defines(lines[i], entry, k) {
        var i :| 0 <= i < |lines| && Defines(lines[i], entry, k);
        if i < |init| {
          assert init[i] == lines[i];
        }
      }
    }
  }

  /** The value for a key is the one from the last line that yields that key. */
  lemma {:induction false} CollectLastWins(lines: seq<string>, entry: string -> Option<(string, string)>, i: nat)
    requires i < |lines| && entry(lines[i]).Some?
    requires forall j :: i < j < |lines| ==> !Defines(lines[j], entry, entry(lines[i]).value.0)
    ensures entry(lines[i]).value.0 in Collect(lines, entry)
    ensures Collect(lines, entry)[entry(lines[i]).value.0] == entry(lines[i]).value.1
  {
    if i < |lines| - 1 {
      var init := lines[..|lines| - 1];
      assert init[i] == lines[i];
      assert forall j :: i < j < |init| ==> init[j] == lines[j];
      CollectLastWins(init, entry, i);
      assert !Defines(lines[|lines| - 1], entry, entry(lines[i]).value.0);
    }
  }
}
