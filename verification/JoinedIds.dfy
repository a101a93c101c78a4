/**
 The comma-separated text in which scripts/dedup_customers.py stores the Splynx ids
 of a merged group, and what can be read back from it.
 */
module JoinedIds {
  import opened Basics

  const SPLYNX_ID_MAX := 100

  function Joined(ids: seq<string>): string
    decreases |ids|
  {
    if ids == [] then "" else if |ids| == 1 then ids[0] else ids[0] + "," + Joined(ids[1..])
  }

  /** merged_splynx_id[:100] */
  function Truncated(s: string): string {
    if |s| <= SPLYNX_ID_MAX then s else s[..SPLYNX_ID_MAX]
  }

  /** The parts between commas. */
  function Split(s: string): (parts: seq<string>)
    ensures parts != []
    decreases |s|
  {
    if s == "" then [""]
    else
      var rest := Split(s[1..]);
      if s[0] == ',' then [""] + rest else [[s[0]] + rest[0]] + rest[1..]
  }

  lemma {:induction false} JoinedSplit(s: string)
    ensures Joined(Split(s)) == s
    decreases |s|
  {
    if s != "" {
      var rest := Split(s[1..]);
      JoinedSplit(s[1..]);
      if s[0] == ',' {
        assert Split(s)[1..] == rest;
      } else {
        assert Split(s)[1..] == rest[1..];
        assert s == [s[0]] + s[1..];
      }
    }
  }

  predicate CommaFree(s: string) {
    forall i :: 0 <= i < |s| ==> s[i] != ','
  }

  lemma {:induction false} SplitFirst(first: string, rest: string)
    requires CommaFree(first)
    ensures Split(first) == [first]
    ensures Split(first + "," + rest) == [first] + Split(rest)
    decreases |first|
  {
    if first == "" {
      assert first + "," + rest == "," + rest;
      assert ("," + rest)[1..] == rest;
    } else {
      var tail := first[1..];
      SplitFirst(tail, rest);
      assert (first + "," + rest)[1..] == tail + "," + rest;
      assert first == [first[0]] + tail;
    }
  }

  /** Ids without commas can all be read back from their join, in order. */
  lemma {:induction false} SplitJoined(ids: seq<string>)
    requires ids != [] && forall i :: 0 <= i < |ids| ==> CommaFree(ids[i])
    ensures Split(Joined(ids)) == ids
    decreases |ids|
  {
    if |ids| == 1 {
      SplitFirst(ids[0], "");
    } else {
      SplitFirst(ids[0], Joined(ids[1..]));
      SplitJoined(ids[1..]);
    }
  }

  // ---- Truncation ----

  /** Characters, counting a separator after each part. */
  function Weight(parts: seq<string>): nat
    decreases |parts|
  {
    if parts == [] then 0 else |parts[0]| + 1 + Weight(parts[1..])
  }

  lemma {:induction false} JoinedLength(parts: seq<string>)
    requires parts != []
    ensures |Joined(parts)| + 1 == Weight(parts)
    decreases |parts|
  {
    if |parts| == 1 {
      assert parts[1..] == [];
    } else {
      JoinedLength(parts[1..]);
    }
  }

  lemma {:induction false} WeightWithout(parts: seq<string>, k: nat)
    requires k < |parts|
    ensures Weight(parts) == |parts[k]| + 1 + Weight(parts[..k] + parts[k + 1..])
    decreases |parts|
  {
    if k == 0 {
      assert parts[..0] + parts[1..] == parts[1..];
    } else {
      WeightWithout(parts[1..], k - 1);
      assert (parts[..k] + parts[k + 1..])[1..] == parts[1..][..k - 1] + parts[1..][k..];
    }
  }

  lemma {:induction false} WeightCovers(ids: seq<string>, parts: seq<string>)
    requires NoRepeats(ids) && forall id :: id in ids ==> id in parts
    ensures Weight(ids) <= Weight(parts)
    decreases |ids|
  {
    if ids == [] {
    } else {
      assert ids[0] in parts;
      var k :| 0 <= k < |parts| && parts[k] == ids[0];
      var others := parts[..k] + parts[k + 1..];
      WeightWithout(parts, k);
      forall id | id in ids[1..] ensures id in others {
        assert id in ids && id != ids[0];
        var j :| 0 <= j < |parts| && parts[j] == id;
        assert if j < k then others[j] == id else others[j - 1] == id;
      }
      WeightCovers(ids[1..], others);
    }
  }

  /** Every one of the ids can be read back from the text. */
  ghost predicate AllReadable(text: string, ids: seq<string>) {
    forall id :: id in ids ==> id in Split(text)
  }

  /** Cutting the join at 100 characters loses no id exactly when it cuts nothing. */
  lemma TruncatedReadableIff(ids: seq<string>)
    requires ids != [] && NoRepeats(ids) && forall i :: 0 <= i < |ids| ==> CommaFree(ids[i])
    ensures AllReadable(Truncated(Joined(ids)), ids) <==> |Joined(ids)| <= SPLYNX_ID_MAX
  {
    var text := Truncated(Joined(ids));
    SplitJoined(ids);
    JoinedLength(ids);
    JoinedSplit(text);
    JoinedLength(Split(text));
    if AllReadable(text, ids) {
      WeightCovers(ids, Split(text));
    }
  }
}
