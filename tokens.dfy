/** check_tokens: the start-up test on the three credentials read from the environment. */
module Tokens {
  import opened Json

  /** The three environment variables; None when a variable is not set. */
  datatype Env = Env(practicumToken: Option<string>, telegramToken: Option<string>, telegramChatId: Option<string>)

  /** The Python object os.environ.get gives: a string or None. */
  function EnvValue(v: Option<string>): Value
  {
    if v.Some? then Str(v.value) else Null
  }

  /** Python's `x and y`: x when x is falsy, y otherwise. */
  function PyAnd(x: Value, y: Value): Value
  {
    if Truthy(x) then y else x
  }

  /** The tokens dict, in its insertion order. */
  function Items(env: Env): seq<(string, Option<string>)>
  {
    [("PRACTICUM_TOKEN", env.practicumToken),
     ("TELEGRAM_CHAT_ID", env.telegramChatId),
     ("TELEGRAM_TOKEN", env.telegramToken)]
  }

  /** The else branch of check_tokens: its loop returns False on its first
      iteration; only an empty dict would reach the final `return None`. */
  function FirstIterationReturns(items: seq<(string, Option<string>)>): Option<bool>
  {
    if items == [] then None else Some(false)
  }

  predicate Present(v: Option<string>)
  {
    v.Some? && v.value != ""
  }

  /** check_tokens. `P and C and T is not None` parses as `P and C and (T is not
      None)`, so the API token and the chat id must be non-empty while the bot
      token only has to be set. None, the third possible result, never comes back. */
  function CheckTokens(env: Env): (r: Option<bool>)
    ensures r.Some?
    ensures r.value <==> Present(env.practicumToken) && Present(env.telegramChatId) && env.telegramToken.Some?
  {
    var test := PyAnd(PyAnd(EnvValue(env.practicumToken), EnvValue(env.telegramChatId)),
                      Bool(env.telegramToken.Some?));
    if Truthy(test) then Some(true) else FirstIterationReturns(Items(env))
  }

  /** A bot token that is set but empty passes the test. */
  lemma EmptyBotTokenAccepted(practicum: string, chatId: string)
    requires practicum != "" && chatId != ""
    ensures CheckTokens(Env(Some(practicum), Some(""), Some(chatId))) == Some(true)
  {
  }
}
