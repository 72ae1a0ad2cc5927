/**
 * terrable_build.go: `config()` reads the embedded build file as `key=value`
 * lines. Each line is trimmed BEFORE the blank and '#' tests; a line is split
 * at its first '=' only; key and value are trimmed; a later key overwrites an
 * earlier one.
 */
module TerrableBuild {

  import opened Wrappers
  import opened Strings
  import KeyValue

  /** The entry one line of the build file contributes, if any. */
  function ConfigEntry(line: string): (r: Option<(string, string)>)
    ensures r.Some? <==>
      var t := TrimSpace(line); t != "" && !HasPrefix(t, "#") && '=' in t
    ensures r.Some? ==>
      && '=' !in r.value.0
      && TrimSpace(r.value.0) == r.value.0
      && TrimSpace(r.value.1) == r.value.1
  {
    var t := TrimSpace(line);
    if t == "" || HasPrefix(t, "#") then None
    else
      match SplitFirst(t, '=')
      case None => None
      case Some((k, v)) =>
        TrimSpaceIdempotent(k);
        TrimSpaceIdempotent(v);
        assert forall c :: c in TrimSpace(k) ==> c in k;
        Some((TrimSpace(k), TrimSpace(v)))
  }

  /** The build file's settings: `config()`. */
  method Config(configFile: string) returns (config: map<string, string>)
    ensures config == KeyValue.Collect(Split(configFile, '\n'), ConfigEntry)
  {
    var lines := Split(configFile, '\n');
    config := map[];
    for i := 0 to |lines|
      invariant config == KeyValue.Collect(lines[..i], ConfigEntry)
    {
      KeyValue.CollectStep(lines, ConfigEntry, i);
      var line := TrimSpace(lines[i]);
      if line == "" || HasPrefix(line, "#") {
        continue;
      }
      var parts := SplitFirst(line, '=');
      if parts.Some? {
        var key := TrimSpace(parts.value.0);
        var value := TrimSpace(parts.value.1);
        config := config[key := value];
      }
    }
    assert lines[..|lines|] == lines;
  }

  /** A key is set exactly when some line of the file yields an entry for it. */
  lemma ConfigKeys(configFile: string, k: string)
    ensures var lines := Split(configFile, '\n');
      k in KeyValue.Collect(lines, ConfigEntry) <==>
      exists i :: 0 <= i < |lines| && KeyValue.Defines(lines[i], ConfigEntry, k)
  {
    KeyValue.CollectKeys(Split(configFile, '\n'), ConfigEntry, k);
  }

  /** A later line with the same key overwrites an earlier one. */
  lemma ConfigLastWins(configFile: string, i: nat)
    requires var lines := Split(configFile, '\n');
      i < |lines| && ConfigEntry(lines[i]).Some? &&
      forall j :: i < j < |lines| ==> !KeyValue.Defines(lines[j], ConfigEntry, ConfigEntry(lines[i]).value.0)
    ensures var lines := Split(configFile, '\n'); var kv := ConfigEntry(lines[i]).value;
      kv.0 in KeyValue.Collect(lines, ConfigEntry) && KeyValue.Collect(lines, ConfigEntry)[kv.0] == kv.1
  {
    KeyValue.CollectLastWins(Split(configFile, '\n'), ConfigEntry, i);
  }

  /** A `k=v` line built from trimmed parts is trimmed, and is not a comment when the key is not. */
  lemma SettingLineTrimmed(k: string, v: string)
    requires Trimmed(k) && !HasPrefix(k, "#") && Trimmed(v)
    ensures Trimmed(k + "=" + v) && !HasPrefix(k + "=" + v, "#")
  {
    var line := k + "=" + v;
    assert line[0] == if k == [] then '=' else k[0];
    assert k != [] ==> k[..1] == [k[0]];
    assert line[|line| - 1] == if v == [] then '=' else v[|v| - 1];
  }

  /**
   * Writing a setting as `k=v` and reading the line back gives the setting,
   * for every key without '=' that is trimmed and does not start with '#',
   * and every trimmed value (which may itself contain '=').
   */
  lemma ConfigEntryRoundTrip(k: string, v: string)
    requires '=' !in k && Trimmed(k) && !HasPrefix(k, "#")
    requires Trimmed(v)
    ensures ConfigEntry(k + "=" + v) == Some((k, v))
  {
    var line := k + "=" + v;
    SettingLineTrimmed(k, v);
    TrimSpaceOfTrimmed(line);
    TrimSpaceOfTrimmed(k);
    TrimSpaceOfTrimmed(v);
    assert line[..|k|] == k && line[|k|] == '=' && line[|k| + 1..] == v;
    SplitFirstAt(line, '=', |k|);
  }

  /** An indented '#' line is a comment: the line is trimmed before the test. */
  lemma IndentedCommentSkipped()
    ensures ConfigEntry("  #a=b") == None
  {
    var t := TrimSpace("  #a=b");
    assert LeadingSpaces("  #a=b") == 2 by {
      assert LeadingSpaces("#a=b") == 0;
      assert "  #a=b"[1..] == " #a=b" && " #a=b"[1..] == "#a=b";
    }
    assert t[..1] == "#";
  }
}
