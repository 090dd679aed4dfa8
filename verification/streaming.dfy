/**
 * The streaming delta printer of the chat client.
 *
 * While the inference engine streams, the client takes every item it yields
 * to carry the whole token sequence produced so far, prompt included.  This is
 * the client's own assumption (its comments note that some runners yield only
 * the new tokens).  The client drops the first `len(input_ids)` ids, decodes
 * the remainder with the tokenizer and prints only the part of the decoded
 * text beyond what it has already printed.  The items here are arbitrary id
 * lists, so the other kind of runner is covered too: with it nothing is
 * printed until an item is longer than the prompt, and the first
 * `len(input_ids)` generated ids are silently dropped.  Its state is the pair
 * `last_text_len` / `full_response`, modelled here as `Printer`.
 *
 * The tokenizer's `decode` is a parameter (`decode: seq<int> -> string`), so
 * nothing is assumed about it.  In particular `decode` may rewrite characters
 * it produced earlier (a multi-byte character completed by a later token):
 * the echo lemmas below therefore carry an explicit precondition.
 */
module Streaming {

  /** `last_text_len` and `full_response` of one streamed turn. */
  datatype Printer = Printer(lastTextLen: nat, fullResponse: string)

  /** The state before the first item of a stream: nothing printed yet. */
  const Fresh: Printer := Printer(0, "")

  /** The printer's invariant: the counter is the length of the recorded response. */
  predicate Consistent(p: Printer)
  {
    p.lastTextLen == |p.fullResponse|
  }

  /** Total number of characters in a list of printed pieces. */
  function TotalLength(pieces: seq<string>): nat
  {
    if pieces == [] then 0
    else TotalLength(pieces[..|pieces| - 1]) + |pieces[|pieces| - 1]|
  }

  /** What a terminal shows after the pieces were printed one after another. */
  function Concat(pieces: seq<string>): (shown: string)
    ensures |shown| == TotalLength(pieces)
  {
    if pieces == [] then ""
    else Concat(pieces[..|pieces| - 1]) + pieces[|pieces| - 1]
  }

  /**
   * The ids produced beyond the prompt: `output_ids` without its first
   * `promptLen` elements when it is longer than the prompt, and nothing otherwise.
   */
  function GeneratedIds(outputIds: seq<int>, promptLen: nat): (generated: seq<int>)
    ensures |outputIds| > promptLen ==>
              |generated| == |outputIds| - promptLen && outputIds[..promptLen] + generated == outputIds
    ensures |outputIds| <= promptLen ==> generated == []
  {
    if |outputIds| > promptLen then outputIds[promptLen..] else []
  }

  /** The text the tokenizer makes of the generated part of one stream item. */
  function Decoded(outputIds: seq<int>, promptLen: nat, decode: seq<int> -> string): string
  {
    decode(GeneratedIds(outputIds, promptLen))
  }

  /** Some ids were generated and their text is longer than what was printed. */
  predicate Grows(p: Printer, outputIds: seq<int>, promptLen: nat, decode: seq<int> -> string)
  {
    |GeneratedIds(outputIds, promptLen)| > 0 && |Decoded(outputIds, promptLen, decode)| > p.lastTextLen
  }

  /**
   * One iteration of the streaming loop: the new printer state and the list of
   * pieces printed (empty, or the single delta).
   */
  function Step(p: Printer, outputIds: seq<int>, promptLen: nat, decode: seq<int> -> string)
    : (r: (Printer, seq<string>))
    // silent exactly when the state is unchanged, and exactly when the text did not grow
    ensures r.1 == [] <==> r.0 == p
    ensures r.1 == [] <==> !Grows(p, outputIds, promptLen, decode)
    // the counter never decreases and the invariant is kept
    ensures p.lastTextLen <= r.0.lastTextLen
    ensures Consistent(p) ==> Consistent(r.0)
    // when it prints, it prints one non-empty piece: the decoded text beyond the old count
    ensures r.1 != [] ==>
              var current := Decoded(outputIds, promptLen, decode);
              |r.1| == 1 && |r.1[0]| > 0 && Consistent(r.0) && r.0.fullResponse == current &&
              current[..p.lastTextLen] + r.1[0] == current
    // and when the new text extends the recorded response, response + piece is the new response
    ensures Consistent(p) && r.1 != [] && p.fullResponse <= r.0.fullResponse ==>
              p.fullResponse + r.1[0] == r.0.fullResponse
  {
    var generated := GeneratedIds(outputIds, promptLen);
    if |generated| > 0 then
      var current := decode(generated);
      if |current| > p.lastTextLen then
        (Printer(|current|, current), [current[p.lastTextLen..]])
      else
        (p, [])
    else
      (p, [])
  }

  /**
   * The streaming loop over a whole stream, starting from `Fresh`: the final
   * printer state and every piece printed, in order.
   */
  function Run(outputs: seq<seq<int>>, promptLen: nat, decode: seq<int> -> string)
    : (r: (Printer, seq<string>))
    ensures Consistent(r.0)
    ensures r.0.lastTextLen == TotalLength(r.1)
    ensures |r.1| <= |outputs|
    ensures forall i :: 0 <= i < |r.1| ==> |r.1[i]| > 0
    decreases |outputs|
  {
    if outputs == [] then (Fresh, [])
    else
      var before := Run(outputs[..|outputs| - 1], promptLen, decode);
      var step := Step(before.0, outputs[|outputs| - 1], promptLen, decode);
      var printed := before.1 + step.1;
      assert step.1 == [] ==> printed == before.1;
      assert step.1 != [] ==> printed[..|printed| - 1] == before.1 && printed[|printed| - 1] == step.1[0];
      (step.0, printed)
  }

  /**
   * One pass of the loop body of chat.py: the new counter, response and pieces
   * printed are those of `Step`.
   */
  method StreamStep(lastTextLen: nat, fullResponse: string, printed: seq<string>,
                    outputIds: seq<int>, inputIds: seq<int>, decode: seq<int> -> string)
    returns (lastTextLen': nat, fullResponse': string, printed': seq<string>)
    ensures var step := Step(Printer(lastTextLen, fullResponse), outputIds, |inputIds|, decode);
            Printer(lastTextLen', fullResponse') == step.0 && printed' == printed + step.1
  {
    lastTextLen', fullResponse', printed' := lastTextLen, fullResponse, printed;
    var generatedIds: seq<int>;
    if |outputIds| > |inputIds| {
      generatedIds := outputIds[|inputIds|..];
    } else {
      generatedIds := [];
    }
    assert generatedIds == GeneratedIds(outputIds, |inputIds|);
    if |generatedIds| > 0 {
      var currentText := decode(generatedIds);
      if |currentText| > lastTextLen {
        var diff := currentText[lastTextLen..];
        printed' := printed + [diff];
        lastTextLen' := |currentText|;
        fullResponse' := currentText;
      }
    }
    assert printed + [] == printed;
  }

  /** The loop of chat.py over `outputs`, with `inputIds` the encoded prompt. */
  method StreamTurn(outputs: seq<seq<int>>, inputIds: seq<int>, decode: seq<int> -> string)
    returns (lastTextLen: nat, fullResponse: string, printed: seq<string>)
    ensures (Printer(lastTextLen, fullResponse), printed) == Run(outputs, |inputIds|, decode)
    ensures lastTextLen == |fullResponse| == TotalLength(printed)
  {
    lastTextLen := 0;
    fullResponse := "";
    printed := [];
    for i := 0 to |outputs|
      invariant (Printer(lastTextLen, fullResponse), printed) == Run(outputs[..i], |inputIds|, decode)
    {
      assert outputs[..i + 1][..i] == outputs[..i];
      lastTextLen, fullResponse, printed := StreamStep(lastTextLen, fullResponse, printed, outputs[i], inputIds, decode);
    }
    assert outputs[..|outputs|] == outputs;
  }

  /**
   * Across iterations the counter never decreases and the printed pieces only
   * grow at the end: the state after any prefix of the stream is behind the
   * state after the whole stream.
   */
  lemma {:induction false} RunMonotone(outputs: seq<seq<int>>, k: nat, promptLen: nat, decode: seq<int> -> string)
    requires k <= |outputs|
    ensures Run(outputs[..k], promptLen, decode).0.lastTextLen <= Run(outputs, promptLen, decode).0.lastTextLen
    ensures Run(outputs[..k], promptLen, decode).1 <= Run(outputs, promptLen, decode).1
    decreases |outputs|
  {
    if k == |outputs| {
      assert outputs[..k] == outputs;
    } else {
      var init := outputs[..|outputs| - 1];
      assert init[..k] == outputs[..k];
      RunMonotone(init, k, promptLen, decode);
    }
  }

  /** Whether `full` is empty or the whole decoded text of an item of `outputs` with generated ids. */
  ghost predicate ResponseFrom(full: string, outputs: seq<seq<int>>, promptLen: nat, decode: seq<int> -> string)
  {
    full == "" ||
    exists j :: 0 <= j < |outputs| && |GeneratedIds(outputs[j], promptLen)| > 0 &&
                full == Decoded(outputs[j], promptLen, decode)
  }

  /** Appending an item keeps `ResponseFrom` for an unchanged response, or for the item's own text. */
  lemma ResponseFromSnoc(before: string, full: string, init: seq<seq<int>>, last: seq<int>,
                         promptLen: nat, decode: seq<int> -> string)
    requires ResponseFrom(before, init, promptLen, decode)
    requires full == before ||
             (|GeneratedIds(last, promptLen)| > 0 && full == Decoded(last, promptLen, decode))
    ensures ResponseFrom(full, init + [last], promptLen, decode)
  {
    var outputs := init + [last];
    if |GeneratedIds(last, promptLen)| > 0 && full == Decoded(last, promptLen, decode) {
      assert outputs[|init|] == last;
    } else if full != "" {
      var j :| 0 <= j < |init| && |GeneratedIds(init[j], promptLen)| > 0 &&
               before == Decoded(init[j], promptLen, decode);
      assert outputs[j] == init[j];
    }
  }

  /**
   * The recorded response is always either empty or the full decoded text of
   * one of the stream's items that had generated ids.
   */
  lemma {:induction false} RunResponseFrom(outputs: seq<seq<int>>, promptLen: nat, decode: seq<int> -> string)
    ensures var full := Run(outputs, promptLen, decode).0.fullResponse;
            full == "" ||
            exists j :: 0 <= j < |outputs| && |GeneratedIds(outputs[j], promptLen)| > 0 &&
                        full == Decoded(outputs[j], promptLen, decode)
    decreases |outputs|
  {
    if outputs != [] {
      var init := outputs[..|outputs| - 1];
      var last := outputs[|outputs| - 1];
      assert init + [last] == outputs;
      RunResponseFrom(init, promptLen, decode);
      var before := Run(init, promptLen, decode).0;
      var step := Step(before, last, promptLen, decode).0;
      assert step.fullResponse == before.fullResponse ||
             (|GeneratedIds(last, promptLen)| > 0 && step.fullResponse == Decoded(last, promptLen, decode));
      ResponseFromSnoc(before.fullResponse, step.fullResponse, init, last, promptLen, decode);
    }
  }

  /**
   * Every item whose text grew extended the response recorded before it.  This
   * is what the client silently relies on; `decode` does not promise it.
   */
  ghost predicate PrintsExtend(outputs: seq<seq<int>>, promptLen: nat, decode: seq<int> -> string)
    decreases |outputs|
  {
    outputs != [] ==>
      var init := outputs[..|outputs| - 1];
      var before := Run(init, promptLen, decode).0;
      var last := outputs[|outputs| - 1];
      PrintsExtend(init, promptLen, decode) &&
      (Grows(before, last, promptLen, decode) ==> before.fullResponse <= Decoded(last, promptLen, decode))
  }

  /**
   * A simpler sufficient condition: the decoded text of every item with generated
   * ids is a prefix of the decoded text of every later such item.
   */
  ghost predicate PrefixOrdered(outputs: seq<seq<int>>, promptLen: nat, decode: seq<int> -> string)
  {
    forall i, j ::
      0 <= i < j < |outputs| &&
      |GeneratedIds(outputs[i], promptLen)| > 0 && |GeneratedIds(outputs[j], promptLen)| > 0 ==>
      Decoded(outputs[i], promptLen, decode) <= Decoded(outputs[j], promptLen, decode)
  }

  /** When the decoded texts only ever extend each other, every printed piece extended the response. */
  lemma {:induction false} PrefixOrderedPrintsExtend(outputs: seq<seq<int>>, promptLen: nat, decode: seq<int> -> string)
    requires PrefixOrdered(outputs, promptLen, decode)
    ensures PrintsExtend(outputs, promptLen, decode)
    decreases |outputs|
  {
    if outputs != [] {
      var n := |outputs|;
      var init := outputs[..n - 1];
      forall i, j |
        0 <= i < j < |init| &&
        |GeneratedIds(init[i], promptLen)| > 0 && |GeneratedIds(init[j], promptLen)| > 0
        ensures Decoded(init[i], promptLen, decode) <= Decoded(init[j], promptLen, decode)
      {
        assert init[i] == outputs[i] && init[j] == outputs[j];
      }
      PrefixOrderedPrintsExtend(init, promptLen, decode);
      RunResponseFrom(init, promptLen, decode);
      var before := Run(init, promptLen, decode).0;
      if Grows(before, outputs[n - 1], promptLen, decode) && before.fullResponse != "" {
        var j :| 0 <= j < |init| && |GeneratedIds(init[j], promptLen)| > 0 &&
                 before.fullResponse == Decoded(init[j], promptLen, decode);
        assert init[j] == outputs[j];
      }
    }
  }

  /**
   * When every printed piece extended the recorded response, the terminal shows
   * exactly the final response: the printed pieces concatenate to `full_response`.
   */
  lemma {:induction false} RunEchoesResponse(outputs: seq<seq<int>>, promptLen: nat, decode: seq<int> -> string)
    requires PrintsExtend(outputs, promptLen, decode)
    ensures Concat(Run(outputs, promptLen, decode).1) == Run(outputs, promptLen, decode).0.fullResponse
    decreases |outputs|
  {
    if outputs != [] {
      var n := |outputs|;
      var init := outputs[..n - 1];
      RunEchoesResponse(init, promptLen, decode);
      var before := Run(init, promptLen, decode);
      var step := Step(before.0, outputs[n - 1], promptLen, decode);
      var printed := before.1 + step.1;
      if step.1 == [] {
        assert printed == before.1;
      } else {
        assert printed[..|printed| - 1] == before.1 && printed[|printed| - 1] == step.1[0];
      }
    }
  }

  /** The echo property for streams whose decoded texts extend each other. */
  lemma PrefixOrderedEchoes(outputs: seq<seq<int>>, promptLen: nat, decode: seq<int> -> string)
    requires PrefixOrdered(outputs, promptLen, decode)
    ensures Concat(Run(outputs, promptLen, decode).1) == Run(outputs, promptLen, decode).0.fullResponse
  {
    PrefixOrderedPrintsExtend(outputs, promptLen, decode);
    RunEchoesResponse(outputs, promptLen, decode);
  }

  /** The loop over a stream with one more item: the earlier items, then one more step. */
  lemma RunSnoc(outputs: seq<seq<int>>, item: seq<int>, promptLen: nat, decode: seq<int> -> string)
    ensures var before := Run(outputs, promptLen, decode);
            var step := Step(before.0, item, promptLen, decode);
            Run(outputs + [item], promptLen, decode) == (step.0, before.1 + step.1)
  {
  }

  /** The three iterations of `EchoWithoutExtending`, one item at a time. */
  lemma EchoSteps(decode: seq<int> -> string)
    requires decode([1]) == "ab" && decode([1, 2]) == "xbc" && decode([1, 2, 3]) == "abcd"
    ensures Step(Fresh, [5, 1], 1, decode) == (Printer(2, "ab"), ["ab"])
    ensures Step(Printer(2, "ab"), [5, 1, 2], 1, decode) == (Printer(3, "xbc"), ["c"])
    ensures Step(Printer(3, "xbc"), [5, 1, 2, 3], 1, decode) == (Printer(4, "abcd"), ["d"])
  {
  }

  /** The loop over the three items of `EchoWithoutExtending`, item by item. */
  lemma ThreeItemRun(decode: seq<int> -> string)
    requires decode([1]) == "ab" && decode([1, 2]) == "xbc" && decode([1, 2, 3]) == "abcd"
    ensures Run([[5, 1], [5, 1, 2]], 1, decode) == (Printer(3, "xbc"), ["ab", "c"])
    ensures Run([[5, 1], [5, 1, 2], [5, 1, 2, 3]], 1, decode) == (Printer(4, "abcd"), ["ab", "c", "d"])
  {
    EchoSteps(decode);
    var one: seq<seq<int>> := [[5, 1]];
    var two: seq<seq<int>> := one + [[5, 1, 2]];
    var three: seq<seq<int>> := two + [[5, 1, 2, 3]];
    RunSnoc([], [5, 1], 1, decode);
    assert [] + [[5, 1]] == one;
    RunSnoc(one, [5, 1, 2], 1, decode);
    assert ["ab"] + ["c"] == ["ab", "c"];
    RunSnoc(two, [5, 1, 2, 3], 1, decode);
    assert ["ab", "c"] + ["d"] == ["ab", "c", "d"];
    assert two == [[5, 1], [5, 1, 2]] && three == [[5, 1], [5, 1, 2], [5, 1, 2, 3]];
  }

  /** In the stream of `EchoWithoutExtending`, the second text "xbc" does not extend the first, "ab". */
  lemma SecondTextRewrites(decode: seq<int> -> string)
    requires decode([1]) == "ab" && decode([1, 2]) == "xbc" && decode([1, 2, 3]) == "abcd"
    ensures !PrintsExtend([[5, 1], [5, 1, 2]], 1, decode)
  {
    EchoSteps(decode);
    var two: seq<seq<int>> := [[5, 1], [5, 1, 2]];
    assert [] + [[5, 1]] == two[..1];
    RunSnoc([], [5, 1], 1, decode);
    assert GeneratedIds([5, 1, 2], 1) == [1, 2];
    assert Grows(Printer(2, "ab"), [5, 1, 2], 1, decode);
    assert !("ab" <= "xbc") by {
      assert "ab"[0] != "xbc"[0];
    }
  }

  /**
   * The precondition of `RunEchoesResponse` is sufficient, not necessary: here
   * the second text "xbc" does not extend the first, "ab", yet the third text
   * "abcd" restores it, so the pieces "ab", "c", "d" still add up to the
   * response recorded.
   */
  lemma EchoWithoutExtending(decode: seq<int> -> string)
    requires decode([1]) == "ab" && decode([1, 2]) == "xbc" && decode([1, 2, 3]) == "abcd"
    ensures var outputs: seq<seq<int>> := [[5, 1], [5, 1, 2], [5, 1, 2, 3]];
            var r := Run(outputs, 1, decode);
            && r == (Printer(4, "abcd"), ["ab", "c", "d"])
            && Concat(r.1) == r.0.fullResponse
            && !PrintsExtend(outputs, 1, decode)
  {
    var three: seq<seq<int>> := [[5, 1], [5, 1, 2], [5, 1, 2, 3]];
    assert three[..2] == [[5, 1], [5, 1, 2]];
    ThreeItemRun(decode);
    SecondTextRewrites(decode);
    assert ["ab", "c", "d"][..2] == ["ab", "c"] && ["ab", "c"][..1] == ["ab"] && ["ab"][..0] == [];
    assert Concat(["ab", "c", "d"]) == "abcd";
  }

  /**
   * Without the precondition the echo can fail: a one-token prompt, then a stream
   * whose first generated token decodes to "ab" and whose first two decode to
   * "xyz".  The terminal shows "abz" while the response recorded is "xyz".
   */
  lemma RewriteBreaksEcho(decode: seq<int> -> string)
    requires decode([7]) == "ab" && decode([7, 8]) == "xyz"
    ensures var r := Run([[5, 7], [5, 7, 8]], 1, decode);
            r == (Printer(3, "xyz"), ["ab", "z"]) && Concat(r.1) != r.0.fullResponse
  {
    var one: seq<seq<int>> := [[5, 7]];
    var two: seq<seq<int>> := one + [[5, 7, 8]];
    assert GeneratedIds([5, 7], 1) == [7];
    assert GeneratedIds([5, 7, 8], 1) == [7, 8];
    RunSnoc([], [5, 7], 1, decode);
    assert [] + [[5, 7]] == one;
    assert Step(Fresh, [5, 7], 1, decode) == (Printer(2, "ab"), ["ab"]);
    assert Run(one, 1, decode) == (Printer(2, "ab"), ["ab"]);
    RunSnoc(one, [5, 7, 8], 1, decode);
    assert "xyz"[2..] == "z";
    assert Step(Printer(2, "ab"), [5, 7, 8], 1, decode) == (Printer(3, "xyz"), ["z"]);
    assert ["ab"] + ["z"] == ["ab", "z"];
    assert Run(two, 1, decode) == (Printer(3, "xyz"), ["ab", "z"]);
    assert ["ab", "z"][..1] == ["ab"] && ["ab"][..0] == [];
    assert Concat(["ab", "z"]) == "abz";
    assert two == [[5, 7], [5, 7, 8]];
  }
}
