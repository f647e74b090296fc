/** The smart-plug notification pattern `/"(?<deviceName>[^"]+)" turned (?<onOrOff>on|off)!/`,
    as `RegExp.prototype.exec` runs it: unanchored, leftmost match first. */
module GoveeMessage {
  import opened Wrappers
  import opened Strings

  datatype OnOrOff = On | Off

  function Word(x: OnOrOff): string {
    match x
    case On => "on"
    case Off => "off"
  }

  /** The text after the closing quote that completes a match. */
  function Ending(x: OnOrOff): string {
    "\" turned " + Word(x) + "!"
  }

  /** A message that the pattern matches, naming `name` as the device. */
  function Message(name: string, x: OnOrOff): string {
    "\"" + name + Ending(x)
  }

  /** The first index at or after `k` holding a double quote, or `|s|` if there is none. */
  function NextQuote(s: string, k: nat): (j: nat)
    requires k <= |s|
    ensures k <= j <= |s|
    ensures j < |s| ==> s[j] == '"'
    ensures forall i :: k <= i < j ==> s[i] != '"'
    decreases |s| - k
  {
    if k == |s| then |s| else if s[k] == '"' then k else NextQuote(s, k + 1)
  }

  /** The match starting exactly at `i`, if any. `[^"]+` can only stop at the next quote, so
      backtracking never finds a second way to match from the same start. */
  function MatchAt(s: string, i: nat): Option<OnOrOff>
    requires i <= |s|
  {
    if i < |s| && s[i] == '"' then
      var j := NextQuote(s, i + 1);
      if j == i + 1 then None
      else if StartsWith(s[j..], Ending(On)) then Some(On)
      else if StartsWith(s[j..], Ending(Off)) then Some(Off)
      else None
    else None
  }

  /** The leftmost position at or after `k` where the pattern matches, or `|s| + 1` if it
      matches nowhere there. */
  function FirstMatch(s: string, k: nat): (i: nat)
    requires k <= |s|
    ensures k <= i <= |s| + 1
    ensures i <= |s| ==> MatchAt(s, i).Some?
    ensures forall j :: k <= j < i && j <= |s| ==> MatchAt(s, j).None?
    decreases |s| - k
  {
    if MatchAt(s, k).Some? then k
    else if k == |s| then |s| + 1
    else FirstMatch(s, k + 1)
  }

  /** `messageRegex.exec(message)?.groups?.onOrOff`: the group of the leftmost match. */
  function Exec(s: string): Option<OnOrOff> {
    var i := FirstMatch(s, 0);
    if i <= |s| then MatchAt(s, i) else None
  }

  lemma NextQuoteAfterName(s: string, k: nat, name: string)
    requires k + |name| < |s| && s[k..k + |name|] == name && Free(name, '"') && s[k + |name|] == '"'
    ensures NextQuote(s, k) == k + |name|
    decreases |name|
  {
    if name != [] {
      assert s[k] == name[0];
      assert s[k + 1..k + 1 + |name[1..]|] == name[1..];
      NextQuoteAfterName(s, k + 1, name[1..]);
    }
  }

  /** In a notification the name runs from the opening quote to the closing one, and the
      ending follows. */
  lemma {:induction false} NameThenEnding(p: string, name: string, x: OnOrOff, q: string)
    requires Free(name, '"')
    ensures var s := p + Message(name, x) + q;
      && s[|p|] == '"' && NextQuote(s, |p| + 1) == |p| + 1 + |name|
      && s[|p| + 1 + |name|..] == Ending(x) + q
  {
    var s := p + Message(name, x) + q;
    var head, tail := p + "\"" + name, Ending(x) + q;
    assert s == head + tail;
    var k := |p| + 1;
    assert s[k..k + |name|] == name;
    assert s[k + |name|] == '"';
    NextQuoteAfterName(s, k, name);
    PrefixOfConcat(head, tail);
  }

  /** Only the ending's own on/off word completes it. */
  lemma EndingSelects(x: OnOrOff, q: string)
    ensures StartsWith(Ending(x) + q, Ending(x))
    ensures x == Off ==> !StartsWith(Ending(x) + q, Ending(On))
  {
    PrefixOfConcat(Ending(x), q);
    if x == Off {
      assert (Ending(x) + q)[10] == 'f' && Ending(On)[10] == 'n';
    }
  }

  /** A well-formed notification matches where it stands. */
  lemma {:induction false} MatchAtMessage(p: string, name: string, x: OnOrOff, q: string)
    requires name != [] && Free(name, '"')
    ensures MatchAt(p + Message(name, x) + q, |p|) == Some(x)
  {
    NameThenEnding(p, name, x, q);
    EndingSelects(x, q);
  }

  /** The match is unanchored: a notification anywhere inside the message is found. */
  lemma {:induction false} MatchesAnywhere(p: string, name: string, x: OnOrOff, q: string)
    requires name != [] && Free(name, '"')
    ensures Exec(p + Message(name, x) + q).Some?
  {
    MatchAtMessage(p, name, x, q);
    assert FirstMatch(p + Message(name, x) + q, 0) <= |p|;
  }

  /** When nothing before the notification can open a match, its own on/off word is the one found. */
  lemma {:induction false} ExecFindsMessage(p: string, name: string, x: OnOrOff, q: string)
    requires name != [] && Free(name, '"') && Free(p, '"')
    ensures Exec(p + Message(name, x) + q) == Some(x)
  {
    var s := p + Message(name, x) + q;
    MatchAtMessage(p, name, x, q);
    var i := FirstMatch(s, 0);
    assert i <= |p|;
  }

  /** Conversely, every match is a quoted, quote-free, non-empty name followed by the ending. */
  lemma MatchShape(s: string, i: nat)
    requires i <= |s| && MatchAt(s, i).Some?
    ensures exists j :: i + 1 < j <= |s| && s[i] == '"' && Free(s[i + 1..j], '"') &&
                        StartsWith(s[j..], Ending(MatchAt(s, i).value))
  {
    var j := NextQuote(s, i + 1);
    assert Free(s[i + 1..j], '"');
  }
}
