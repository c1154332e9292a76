/**
 * `ShellTools._safe` (atlas.py:1050-1063): the guard `run_shell` and
 * `run_powershell` apply before starting a process. A command is refused
 * when its lower-cased text contains any entry of the block list.
 */
module ShellTools {
  import opened Text

  /** `ShellTools.BLOCKED`, in the source's order. */
  const Blocked: seq<string> := ["format c:", "del /s /q c:", "rd /s /q c:", "rm -rf /", "shutdown", "restart"]

  /** True when `cl` contains one of `entries`. */
  function ContainsAny(cl: string, entries: seq<string>): (r: bool)
    ensures r <==> exists k :: 0 <= k < |entries| && Contains(cl, entries[k])
  {
    if entries == [] then false
    else Contains(cl, entries[0]) || ContainsAny(cl, entries[1..])
  }

  /** `ShellTools._safe`. */
  function Safe(command: string): (r: bool)
    ensures r <==> forall k :: 0 <= k < |Blocked| ==> !Contains(Lower(command), Blocked[k])
  {
    !ContainsAny(Lower(command), Blocked)
  }

  /** The block list is written in lower case, so its entries are found
      in any mix of cases. */
  lemma BlockedIsLowerCase()
    ensures forall k :: 0 <= k < |Blocked| ==> Lower(Blocked[k]) == Blocked[k]
  {
    assert Lower(Blocked[0]) == Blocked[0];
    assert Lower(Blocked[1]) == Blocked[1];
    assert Lower(Blocked[2]) == Blocked[2];
    assert Lower(Blocked[3]) == Blocked[3];
    assert Lower(Blocked[4]) == Blocked[4];
    assert Lower(Blocked[5]) == Blocked[5];
  }

  /** The guard does not depend on case. */
  lemma SafeIgnoresCase(command: string)
    ensures Safe(Lower(command)) == Safe(command)
  {
    LowerTwice(command);
  }

  /** A blocked entry, in any case, makes the whole command unsafe wherever
      it occurs and whatever surrounds it. */
  lemma BlockedAnywhere(before: string, middle: string, after: string, k: nat)
    requires k < |Blocked| && Lower(middle) == Blocked[k]
    ensures !Safe(before + middle + after)
  {
    LowerConcat(before + middle, after);
    LowerConcat(before, middle);
    assert Contains(Blocked[k], Blocked[k]) by {
      assert MatchAt(Blocked[k], Blocked[k], 0);
      ContainsIff(Blocked[k], Blocked[k]);
    }
    ContainsInContext(Lower(before), Blocked[k], Lower(after), Blocked[k]);
  }

  /** Every part of a safe command is safe: cutting text off either end
      never exposes a blocked entry. */
  lemma {:induction false} SafePart(command: string, i: nat, j: nat)
    requires i <= j <= |command| && Safe(command)
    ensures Safe(command[i..j])
  {
    if !Safe(command[i..j]) {
      var k :| 0 <= k < |Blocked| && Contains(Lower(command[i..j]), Blocked[k]);
      assert command == command[..i] + command[i..j] + command[j..];
      LowerConcat(command[..i] + command[i..j], command[j..]);
      LowerConcat(command[..i], command[i..j]);
      ContainsInContext(Lower(command[..i]), Lower(command[i..j]), Lower(command[j..]), Blocked[k]);
    }
  }
}
