/**
 * The small input rules of the chat page (public/main.js): a submitted message
 * is the input text trimmed, and an all-blank input sends nothing; a tab shows
 * its own example prompt as placeholder, or a default one.
 */
module Forms {
  import opened Options

  /**
   * The characters `String.prototype.trim` removes: the ECMAScript WhiteSpace
   * (tab, vertical tab, form feed, space, no-break space, byte order mark and the
   * space separators) and LineTerminator (line feed, carriage return, line and
   * paragraph separators) code points.
   */
  predicate IsBlank(c: char)
  {
    || c == '\t' || c == '\n' || c == '\U{B}' || c == '\U{C}' || c == '\r' || c == ' '
    || c == '\U{A0}' || c == '\U{1680}' || ('\U{2000}' <= c <= '\U{200A}')
    || c == '\U{2028}' || c == '\U{2029}' || c == '\U{202F}' || c == '\U{205F}'
    || c == '\U{3000}' || c == '\U{FEFF}'
  }

  predicate AllBlank(s: string)
  {
    forall i :: 0 <= i < |s| ==> IsBlank(s[i])
  }

  /** Where the text of `s` starts: the index of its first non-blank at or after `from`, or `|s|`. */
  function TextStart(s: string, from: nat): (k: nat)
    requires from <= |s|
    ensures from <= k <= |s|
    ensures forall i :: from <= i < k ==> IsBlank(s[i])
    ensures k == |s| || !IsBlank(s[k])
    decreases |s| - from
  {
    if from < |s| && IsBlank(s[from]) then TextStart(s, from + 1) else from
  }

  /** Where the text of `s[..upto]` ends: one past its last non-blank, or 0. */
  function TextEnd(s: string, upto: nat): (k: nat)
    requires upto <= |s|
    ensures k <= upto
    ensures forall i :: k <= i < upto ==> IsBlank(s[i])
    ensures k == 0 || !IsBlank(s[k - 1])
  {
    if upto > 0 && IsBlank(s[upto - 1]) then TextEnd(s, upto - 1) else upto
  }

  /** `s.trim()`: `s` without its leading and trailing blanks. */
  function Trim(s: string): (r: string)
    ensures var lo, hi := TextStart(s, 0), TextEnd(s, |s|);
      if lo < hi then r == s[lo..hi] else r == "" && AllBlank(s)
  {
    var lo, hi := TextStart(s, 0), TextEnd(s, |s|);
    if lo < hi then s[lo..hi] else ""
  }

  /**
   * What the submit handlers send for the input text `value`: nothing when it is
   * empty after trimming, otherwise the trimmed text, which starts and ends with a
   * non-blank character and sits in `value` between runs of blanks only.
   */
  function SubmittedMessage(value: string): (m: Option<string>)
    ensures m.None? <==> AllBlank(value)
    ensures m.Some? ==>
      var lo, hi := TextStart(value, 0), TextEnd(value, |value|);
      && lo < hi && m.value == value[lo..hi]
      && !IsBlank(value[lo]) && !IsBlank(value[hi - 1])
      && (forall i :: 0 <= i < lo ==> IsBlank(value[i]))
      && (forall i :: hi <= i < |value| ==> IsBlank(value[i]))
  {
    var message := Trim(value);
    if message == "" then None else Some(message)
  }

  /** A message text box (`initial-message-input`, `main-message-input`). */
  class MessageInput {
    var value: string

    constructor ()
      ensures value == ""
    {
      value := "";
    }

    /**
     * The submit handler: sends the trimmed text when it is not empty and then
     * clears the box; an all-blank box is left as it is and nothing is sent.
     */
    method Submit() returns (sent: Option<string>)
      modifies this
      ensures sent == SubmittedMessage(old(value))
      ensures value == if sent.Some? then "" else old(value)
    {
      var message := Trim(value);
      if message != "" {
        sent := Some(message);
        value := "";
      } else {
        sent := None;
      }
    }
  }

  /** The placeholder shown when no tab has its own. */
  const DefaultPlaceholder: string := "输入你的想法..."

  /** The example prompt of each tab, keyed by the tab's label. */
  const PlaceholderMap: map<string, string> := map[
    "旅游规划" := "规划一次三天两夜的桂林之旅...",
    "设计商品" := "设计一款以壮族元素为灵感的茶杯...",
    "照片创作" := "生成一张赛博朋克风格的城市夜景照片..."
  ]

  /**
   * `placeholderMap[button.textContent] || default`: a missing entry is undefined
   * and an empty one falsy, and both fall back to the default.
   */
  function Placeholder(tab: string): (r: string)
    ensures tab in PlaceholderMap ==> r == PlaceholderMap[tab]
    ensures tab !in PlaceholderMap ==> r == DefaultPlaceholder
    ensures r != ""
  {
    var found := if tab in PlaceholderMap then PlaceholderMap[tab] else "";
    if found != "" then found else DefaultPlaceholder
  }
}
