/**
 * Segment-based address translation for disassembling a chunk of a binary:
 * the file offset of the chunk is mapped to a virtual address through the
 * first segment whose file range holds it.
 */
module Radare2 {

  /** A segment as radare2 reports it; a missing key reads as 0. */
  datatype Segment = Segment(fields: map<string, int>)

  function Field(s: Segment, key: string): int {
    if key in s.fields then s.fields[key] else 0
  }

  function PAddr(s: Segment): int { Field(s, "paddr") }
  function Size(s: Segment): int { Field(s, "size") }
  function VAddr(s: Segment): int { Field(s, "vaddr") }

  /** The offset lies in the segment's half-open file range. */
  predicate Holds(s: Segment, offset: int) {
    PAddr(s) <= offset < PAddr(s) + Size(s)
  }

  /** `_calculate_base_addr`: the first holding segment translates the offset, otherwise it is returned unchanged. */
  function CalculateBaseAddr(segments: seq<Segment>, chunkOffset: int): int {
    if segments == [] then chunkOffset
    else if Holds(segments[0], chunkOffset) then VAddr(segments[0]) + (chunkOffset - PAddr(segments[0]))
    else CalculateBaseAddr(segments[1..], chunkOffset)
  }

  /**
   * When a segment holds the offset, the first such segment in list order
   * translates it to its virtual address plus the offset into the segment;
   * when none does, the offset comes back unchanged.
   */
  lemma {:induction false} CalculateBaseAddrSpec(segments: seq<Segment>, chunkOffset: int)
    ensures forall i | 0 <= i < |segments| && Holds(segments[i], chunkOffset) && (forall j | 0 <= j < i :: !Holds(segments[j], chunkOffset)) ::
      CalculateBaseAddr(segments, chunkOffset) == VAddr(segments[i]) + (chunkOffset - PAddr(segments[i]))
    ensures (forall i | 0 <= i < |segments| :: !Holds(segments[i], chunkOffset)) ==>
      CalculateBaseAddr(segments, chunkOffset) == chunkOffset
  {
    if segments != [] {
      CalculateBaseAddrSpec(segments[1..], chunkOffset);
      forall i | 1 <= i < |segments| && Holds(segments[i], chunkOffset) && (forall j | 0 <= j < i :: !Holds(segments[j], chunkOffset))
        ensures CalculateBaseAddr(segments, chunkOffset) == VAddr(segments[i]) + (chunkOffset - PAddr(segments[i]))
      {
        assert !Holds(segments[0], chunkOffset);
        assert segments[1..][i - 1] == segments[i];
        assert forall j | 0 <= j < i - 1 :: segments[1..][j] == segments[j + 1];
      }
      if forall i | 0 <= i < |segments| :: !Holds(segments[i], chunkOffset) {
        assert forall i | 0 <= i < |segments[1..]| :: segments[1..][i] == segments[i + 1];
      }
    }
  }

  /**
   * A segment without a positive size (a missing "size" reads as 0) holds no
   * offset, so inserting one anywhere in the list never changes a translation.
   */
  lemma {:induction false} SizelessSegmentNeverMatches(segments: seq<Segment>, s: Segment, k: nat, offset: int)
    requires Size(s) <= 0 && k <= |segments|
    ensures !Holds(s, offset)
    ensures CalculateBaseAddr(segments[..k] + [s] + segments[k..], offset) == CalculateBaseAddr(segments, offset)
    decreases k
  {
    var t := segments[..k] + [s] + segments[k..];
    if k == 0 {
      assert t == [s] + segments;
      assert t[1..] == segments;
    } else {
      SizelessSegmentNeverMatches(segments[1..], s, k - 1, offset);
      assert t[0] == segments[0];
      assert t[1..] == segments[1..][..k - 1] + [s] + segments[1..][k - 1..];
    }
  }

  /**
   * The translation moves every offset of a segment by the same amount
   * (vaddr - paddr), so two offsets whose first holding segment is the same
   * keep their distance.
   */
  lemma TranslationKeepsDistance(segments: seq<Segment>, i: nat, a: int, b: int)
    requires i < |segments| && Holds(segments[i], a) && Holds(segments[i], b)
    requires forall j | 0 <= j < i :: !Holds(segments[j], a) && !Holds(segments[j], b)
    ensures CalculateBaseAddr(segments, b) - CalculateBaseAddr(segments, a) == b - a
  {
    CalculateBaseAddrSpec(segments, a);
    CalculateBaseAddrSpec(segments, b);
  }
}
