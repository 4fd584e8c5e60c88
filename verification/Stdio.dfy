/** The line reader of the C library, as the loaders use it. */
module Stdio {

  const NUL := '\0'

  /** fgets: how many characters it takes, at most `room`, stopping after a newline. */
  function LineLength(text: string, room: nat): (n: nat)
    ensures n <= |text| && n <= room && (text != [] && room > 0 ==> n > 0)
    decreases room
  {
    if text == [] || room == 0 then 0
    else if text[0] == '\n' then 1
    else 1 + LineLength(text[1..], room - 1)
  }

  /** A line that fits is taken with its newline; a longer one is cut. */
  lemma {:induction false} LineLengthIs(body: string, rest: string, room: nat)
    requires '\n' !in body
    ensures |body| < room ==> LineLength(body + ['\n'] + rest, room) == |body| + 1
    ensures |body| >= room ==> LineLength(body + ['\n'] + rest, room) == room
    decreases |body|
  {
    var text := body + ['\n'] + rest;
    if body == [] {
      assert text[0] == '\n' || room == 0;
    } else if room > 0 {
      assert text[0] == body[0] && text[1..] == body[1..] + ['\n'] + rest;
      LineLengthIs(body[1..], rest, room - 1);
    }
  }

  /** At the end of the file the last line may lack its newline. */
  lemma {:induction false} LastLineLength(text: string, room: nat)
    requires '\n' !in text && |text| <= room
    ensures LineLength(text, room) == |text|
    decreases |text|
  {
    if text != [] {
      LastLineLength(text[1..], room - 1);
    }
  }
}
