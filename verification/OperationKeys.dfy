/** The key a review is stored under: why operations can stand for it. */
module OperationKeys {
  import opened ColonKeys
  import opened Decimals
  import opened OutboxMachine

  function OperationKey(op: Operation): string {
    op.user + ":" + op.lesson + ":" + Decimal(op.word) + ":" + Decimal(op.version)
  }

  /** The characters the endpoint pattern allows in a lesson id, once it is in lower case. */
  predicate IsLessonId(lesson: string) {
    |lesson| == 36 && forall i :: 0 <= i < |lesson| ==> IsDigit(lesson[i]) || 'a' <= lesson[i] <= 'f' || lesson[i] == '-'
  }

  /** Different operations never share a key, whatever characters the user's id has. */
  lemma OperationKeysNeverCollide(a: Operation, b: Operation)
    requires IsLessonId(a.lesson) && IsLessonId(b.lesson)
    ensures OperationKey(a) == OperationKey(b) <==> a == b
  {
    if OperationKey(a) == OperationKey(b) {
      DecimalRoundTrip(a.version);
      DecimalRoundTrip(b.version);
      LastColon(a.user + ":" + a.lesson + ":" + Decimal(a.word), Decimal(a.version),
                b.user + ":" + b.lesson + ":" + Decimal(b.word), Decimal(b.version));
      DecimalRoundTrip(a.word);
      DecimalRoundTrip(b.word);
      LastColon(a.user + ":" + a.lesson, Decimal(a.word), b.user + ":" + b.lesson, Decimal(b.word));
      LastColon(a.user, a.lesson, b.user, b.lesson);
    }
  }

  /** Without that, a colon in the lesson id lets two users' reviews share a key. */
  lemma ColonLessonsCollide(user: string, part: string, lesson: string, word: nat, version: nat)
    ensures OperationKey(Operation(user, part + ":" + lesson, word, version))
            == OperationKey(Operation(user + ":" + part, lesson, word, version))
  {
    assert user + ":" + (part + ":" + lesson) == user + ":" + part + ":" + lesson;
  }
}
