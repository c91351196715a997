/** Process snapshots as the enumerator delivers them, and the whitelist test. */
module Processes {
  import opened Config
  import opened Text

  /** The per-process lookup failures that the source catches and tolerates. */
  datatype ProcessError = NoSuchProcess | AccessDenied

  /** One process as seen in one snapshot. CPU percentages are only ever compared. */
  datatype ProcessInfo = ProcessInfo(pid: int, name: string, cpuPercent: real)

  /** One entry of an enumeration: readable, or failed while it was read. */
  datatype Entry = Listed(info: ProcessInfo) | Unreadable(error: ProcessError)

  /** A name is whitelisted when its lower-case form equals the lower-case form of a
      whitelist entry. */
  predicate Whitelisted(name: string) {
    exists w :: w in WHITELIST && Lower(w) == Lower(name)
  }

  /** Whitelisting only looks at the lower-case form of the name. */
  lemma WhitelistIgnoresCase(a: string, b: string)
    requires |a| == |b|
    requires forall i :: 0 <= i < |a| ==> LowerChar(a[i]) == LowerChar(b[i])
    ensures Whitelisted(a) <==> Whitelisted(b)
  {
    SameLowerIffPointwise(a, b);
  }

  /** "System" in any capitalisation is whitelisted; a longer name that starts with it is not. */
  lemma SystemInAnyCase()
    ensures Whitelisted("System") && Whitelisted("SYSTEM") && Whitelisted("system")
    ensures Whitelisted("PYTHON.EXE")
    ensures !Whitelisted("systemd") && !Whitelisted("chrome.exe")
  {
    assert "System" in WHITELIST;
    assert Lower("System") == "system";
    assert Lower("SYSTEM") == "system";
    assert Lower("system") == "system";
    assert "python.exe" in WHITELIST;
    assert Lower("python.exe") == "python.exe";
    assert Lower("PYTHON.EXE") == "python.exe";
    forall w | w in WHITELIST
      ensures Lower(w) != Lower("systemd") && Lower(w) != Lower("chrome.exe")
    {
      // Every entry differs from both names either in length or in its first letter.
      assert Lower(w)[0] == LowerChar(w[0]);
      assert Lower("systemd")[0] == 's' && Lower("chrome.exe")[0] == 'c';
    }
  }
}
