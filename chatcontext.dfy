/**
 * The message list that the two chat routes send to the completion: one
 * system message, then a sliding window over the conversation's stored
 * messages (the last twelve, oldest first), then the user's new turn.
 */
module ChatContext {
  import opened Json

  datatype Role = System | User | Assistant

  /** One `{"role": ..., "content": ...}` entry of the completion input. */
  datatype Msg = Msg(role: Role, content: string)

  const WindowSize: nat := 12
  const BasePrompt: string := "You are an expert AI nutrition coach. Be concise and practical."

  /** Python's `s[-n:]` for a positive `n`. */
  function LastN<T>(s: seq<T>, n: nat): seq<T>
    requires n > 0
  {
    if |s| <= n then s else s[|s| - n..]
  }

  /** The window as eviction: drop the oldest entry until at most `n` remain. */
  function Evict<T>(s: seq<T>, n: nat): seq<T>
    decreases |s|
  {
    if |s| <= n then s else Evict(s[1..], n)
  }

  /**
   * The system message: the base prompt, followed by the user's stored
   * preferences when those are truthy. `rendered` is the text Python's
   * f-string makes of the preferences, which is not part of this model.
   */
  function SystemPrompt(prefs: JValue, rendered: string): string {
    if Truthy(prefs) then BasePrompt + " User preferences: " + rendered else BasePrompt
  }

  /** `[system] + [... for m in history[-12:]] + [{"role": "user", "content": text}]` */
  function Context(system: string, history: seq<Msg>, text: string): seq<Msg> {
    [Msg(System, system)] + LastN(history, WindowSize) + [Msg(User, text)]
  }

  /** The window holds the last `min(n, |s|)` entries, in their original order, and nothing else. */
  lemma LastNIsSuffix<T>(s: seq<T>, n: nat)
    requires n > 0
    ensures var w := LastN(s, n);
      && |w| == Min(n, |s|)
      && s == s[..|s| - |w|] + w
  {
  }

  /** Slicing from the end and evicting from the front give the same window. */
  lemma {:induction false} LastNIsEviction<T>(s: seq<T>, n: nat)
    requires n > 0
    ensures LastN(s, n) == Evict(s, n)
    decreases |s|
  {
    if |s| > n {
      LastNIsEviction(s[1..], n);
      assert s[1..][|s[1..]| - n..] == s[|s| - n..];
    }
  }

  /** After one more message, the window is the previous window with that message, trimmed again. */
  lemma WindowSlides<T>(s: seq<T>, x: T, n: nat)
    requires n > 0
    ensures LastN(s + [x], n) == LastN(LastN(s, n) + [x], n)
  {
    var t := s + [x];
    if |s| >= n {
      var w := s[|s| - n..];
      assert (w + [x])[|w + [x]| - n..] == t[|t| - n..];
    }
  }

  /**
   * The completion input: the system message first, the user's new turn
   * last, and between them the last `min(12, |history|)` stored messages in
   * order; so at most 14 entries.
   */
  lemma ContextShape(system: string, history: seq<Msg>, text: string)
    ensures var ctx, w := Context(system, history, text), Min(WindowSize, |history|);
      && |ctx| == w + 2 && |ctx| <= WindowSize + 2
      && ctx[0] == Msg(System, system)
      && ctx[|ctx| - 1] == Msg(User, text)
      && ctx[1..|ctx| - 1] == history[|history| - w..]
  {
    var ctx := Context(system, history, text);
    var win := LastN(history, WindowSize);
    LastNIsSuffix(history, WindowSize);
    assert ctx[1..|ctx| - 1] == win;
  }

  /** The system message is the base prompt, with the preferences added exactly when they are truthy. */
  lemma SystemPromptShape(prefs: JValue, rendered: string)
    ensures var sys := SystemPrompt(prefs, rendered);
      && |BasePrompt| <= |sys| && sys[..|BasePrompt|] == BasePrompt
      && (sys == BasePrompt <==> !Truthy(prefs))
  {
    var sys := SystemPrompt(prefs, rendered);
    if Truthy(prefs) {
      assert |sys| > |BasePrompt|;
    }
  }
}
