/** Keys joined from parts with colons. */
module ColonKeys {

  /** A last part without a colon can be read back, whatever stands before it. */
  lemma LastColon(front: string, last: string, front': string, last': string)
    requires front + ":" + last == front' + ":" + last'
    requires ':' !in last && ':' !in last'
    ensures front == front' && last == last'
  {
    var key := front + ":" + last;
    assert key[|front|] == ':' && key[|front'|] == ':';
    assert forall i :: |front| < i < |key| ==> key[i] == last[i - |front| - 1];
    assert forall i :: |front'| < i < |key| ==> key[i] == last'[i - |front'| - 1];
    assert |front| == |front'|;
    assert key[..|front|] == front && key[..|front|] == front';
    assert key[|front| + 1..] == last && key[|front| + 1..] == last';
  }
}
