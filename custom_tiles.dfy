/** The custom-deck editor: a list of question/answer pairs built up from a
    form, and the configuration record written out from it after every edit. */
module CustomTiles {
  import opened Strings

  datatype Pair = Pair(question: string, answer: string)

  /** What the add rule lets into the list: both sides trimmed and non-empty. */
  predicate WellFormed(p: Pair) {
    p.question != [] && p.answer != [] && IsTrimmed(p.question) && IsTrimmed(p.answer)
  }

  /** The configuration the editor writes out: a subject name and the pairs. */
  datatype Config = Config(subject: string, pairs: seq<Pair>)

  const DefaultSubject: string := "Custom Subject"

  /** `{ subject: subjectField || 'Custom Subject', pairs: pairs.map(...) }`:
      an empty subject field falls back to the default name (any other value,
      blanks included, is kept as typed). Each entry is copied with just its
      question and answer, which is all a pair holds, so the configuration's
      list is the editor's list, entry for entry and in the same order. */
  function BuildConfig(subjectField: string, pairs: seq<Pair>): (c: Config)
    ensures c.subject != []
    ensures subjectField != [] ==> c.subject == subjectField
    ensures subjectField == [] ==> c.subject == DefaultSubject
    ensures c.pairs == pairs
  {
    Config(if subjectField == [] then DefaultSubject else subjectField,
           seq(|pairs|, k requires 0 <= k < |pairs| => Pair(pairs[k].question, pairs[k].answer)))
  }

  class PairEditor {
    var pairs: seq<Pair>

    /** Every stored pair passed the add rule. */
    ghost predicate Valid()
      reads this
    {
      forall k :: 0 <= k < |pairs| ==> WellFormed(pairs[k])
    }

    constructor ()
      ensures Valid() && pairs == []
    {
      pairs := [];
    }

    /** The configuration written for the current list: never an empty
        subject, never a blank question or answer. */
    function CurrentConfig(subjectField: string): (c: Config)
      reads this
      requires Valid()
      ensures c == BuildConfig(subjectField, pairs)
      ensures c.subject != []
      ensures |c.pairs| == |pairs|
      ensures forall k :: 0 <= k < |c.pairs| ==> WellFormed(c.pairs[k])
    {
      BuildConfig(subjectField, pairs)
    }

    /** Trims both fields; if either is then empty nothing changes, otherwise
        the trimmed pair goes at the end of the list. */
    method AddPair(questionField: string, answerField: string) returns (added: bool)
      requires Valid()
      modifies this
      ensures Valid()
      ensures added <==> Trim(questionField) != [] && Trim(answerField) != []
      ensures added ==> pairs == old(pairs) + [Pair(Trim(questionField), Trim(answerField))]
      ensures !added ==> pairs == old(pairs)
    {
      var question := Trim(questionField);
      var answer := Trim(answerField);
      if question == [] || answer == [] {
        return false;
      }
      pairs := pairs + [Pair(question, answer)];
      added := true;
    }

    /** `pairs.splice(idx, 1)`: drops the pair at `idx`, keeping the others in
        order; an index past the end removes nothing. */
    method Remove(idx: nat)
      requires Valid()
      modifies this
      ensures Valid()
      ensures idx < |old(pairs)| ==> |pairs| == |old(pairs)| - 1
      ensures idx < |old(pairs)| ==> forall k :: 0 <= k < idx ==> pairs[k] == old(pairs)[k]
      ensures idx < |old(pairs)| ==> forall k :: idx <= k < |pairs| ==> pairs[k] == old(pairs)[k + 1]
      ensures idx >= |old(pairs)| ==> pairs == old(pairs)
    {
      if idx < |pairs| {
        pairs := pairs[..idx] + pairs[idx + 1..];
      }
    }

    /** Empties the list and clears the subject field, so the configuration
        written next is the default subject with no pairs. */
    method Reset() returns (written: Config)
      modifies this
      ensures Valid() && pairs == []
      ensures written == Config(DefaultSubject, [])
    {
      pairs := [];
      written := CurrentConfig([]);
    }
  }
}
