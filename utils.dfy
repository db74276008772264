/** `get_new_channel_versions`: the part of the current channel versions
    that is newer than a previous snapshot of them. Versions are integers,
    so a channel missing from the previous map counts as version 0. */
module Utils {

  /** `previous_versions.get(k, null_version)` for integer versions. */
  function PrevVersion(previous: map<string, int>, k: string): int {
    if k in previous then previous[k] else 0
  }

  /** An empty `previous` is falsy and the current map is returned as is;
      otherwise exactly the keys of `current` whose version exceeds the
      previous one are kept, with their current versions. */
  function GetNewChannelVersions(previous: map<string, int>, current: map<string, int>): (r: map<string, int>)
    ensures previous == map[] ==> r == current
    ensures forall k | k in r :: k in current && r[k] == current[k]
    ensures previous != map[] ==> forall k :: k in r <==> k in current && current[k] > PrevVersion(previous, k)
  {
    if previous != map[] then
      map k | k in current && current[k] > PrevVersion(previous, k) :: current[k]
    else current
  }

  /** A non-empty previous map equal to the current one yields nothing new. */
  lemma UnchangedHasNothingNew(versions: map<string, int>)
    requires versions != map[]
    ensures GetNewChannelVersions(versions, versions) == map[]
  {
    var r := GetNewChannelVersions(versions, versions);
    assert forall k :: k !in r;
  }

  /** Taking the new versions into the previous map catches it up: asking
      again reports nothing new. */
  lemma CatchUp(previous: map<string, int>, current: map<string, int>)
    ensures var caught := previous + GetNewChannelVersions(previous, current);
            GetNewChannelVersions(caught, current) == map[]
  {
    var r := GetNewChannelVersions(previous, current);
    var caught := previous + r;
    if previous == map[] && current == map[] {
      assert caught == map[];
      return;
    }
    assert caught != map[] by {
      if previous == map[] {
        var k :| k in current;
        assert k in caught;
      } else {
        var k :| k in previous;
        assert k in caught;
      }
    }
    forall k | k in current ensures current[k] <= PrevVersion(caught, k) {
      if k !in r {
        assert previous != map[];
      }
    }
    var again := GetNewChannelVersions(caught, current);
    assert forall k :: k !in again;
  }
}
