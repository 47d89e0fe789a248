/** Attribute paths and how they are cut into segments. */
module Paths {
  import opened Text

  /** A location inside an item, such as `user.name`, `address[0]` or `complex.nested.object[1]`. */
  type AttributePath = string

  /**
   * The segments of a path: the pieces between the dots. Nothing else
   * splits, so a bracket index stays part of the segment it follows.
   */
  function ParsePath(path: AttributePath): (segments: seq<string>)
    ensures |segments| >= 1
    ensures forall j :: 0 <= j < |segments| ==> '.' !in segments[j]
    ensures Join(segments, ".") == path
  {
    JoinSplit(path, '.');
    Split(path, '.')
  }

  /** Segments without dots, joined by dots, parse back to themselves. */
  lemma ParseJoined(segments: seq<string>)
    requires |segments| >= 1
    requires forall j :: 0 <= j < |segments| ==> '.' !in segments[j]
    ensures ParsePath(Join(segments, ".")) == segments
  {
    SplitJoin(segments, '.');
  }

  /** A path is a single segment, the whole path, exactly when it has no dot. */
  lemma SingleSegment(path: AttributePath)
    ensures |ParsePath(path)| == 1 <==> '.' !in path
    ensures '.' !in path ==> ParsePath(path) == [path]
  {
    if '.' !in path {
      ParseJoined([path]);
    }
  }

  /**
   * A list index written after a name, `name[<index>]`, stays attached to
   * that name as one segment, whether it is the whole path or the last step
   * of a dotted one.
   */
  lemma IndexedSegmentKept(parents: seq<string>, name: string, index: nat)
    requires '.' !in name
    requires forall j :: 0 <= j < |parents| ==> '.' !in parents[j]
    ensures var last := name + "[" + NatToDecimal(index) + "]";
      ParsePath(Join(parents + [last], ".")) == parents + [last]
  {
    var digits := NatToDecimal(index);
    var last := name + "[" + digits + "]";
    assert '.' !in digits by {
      forall i | 0 <= i < |digits| ensures digits[i] != '.' {
        assert IsDigit(digits[i]);
      }
    }
    assert '.' !in last;
    var all := parents + [last];
    forall j | 0 <= j < |all| ensures '.' !in all[j] {
      if j < |parents| {
        assert all[j] == parents[j];
      }
    }
    ParseJoined(all);
  }
}
