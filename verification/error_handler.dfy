/** The error classifier of middleware/error.middleware.js. The handler starts from a
    copy of the error and overwrites it with each rule that matches, so the last
    matching rule decides; the answer's status is the result's status code or 500,
    and its message the result's message or the generic server message. */
module ErrorHandling {
  import opened Common

  /** The parts of a thrown error the handler reads. `keyValue` lists the duplicate
      key's fields in key order; `fieldMessages` the messages of a validation error;
      a missing `statusCode` or `message` is 0 or "". A missing `keyValue` is read
      as an empty one, where the handler itself would throw on `Object.keys` of
      `undefined`. */
  datatype ErrorInfo = ErrorInfo(
    name: string,
    code: Option<int>,
    value: string,
    keyValue: seq<(string, string)>,
    fieldMessages: seq<string>,
    message: string,
    statusCode: int)

  /** The answer's message, as a tag for each localized text. */
  datatype Message =
    | InvalidId(value: string)
    | DuplicateKey(field: Option<string>, keyValue: Option<string>)
    | InvalidData(details: string)
    | TokenInvalid
    | TokenExpired
    | Text(text: string)
    | ServerError

  datatype Reply = Reply(status: int, message: Message)

  const DuplicateKeyCode := 11000

  /** `join(sep)` over strings. */
  function JoinWith(parts: seq<string>, sep: string): string {
    if parts == [] then ""
    else if |parts| == 1 then parts[0]
    else parts[0] + sep + JoinWith(parts[1..], sep)
  }

  /** The handler's starting point: the error's own status code and message. */
  function Fallback(e: ErrorInfo): Reply {
    Reply(if e.statusCode != 0 then e.statusCode else 500,
          if e.message != "" then Text(e.message) else ServerError)
  }

  /** A rule of the handler: whether it matches and what it sets. */
  datatype Rule = Rule(matches: bool, reply: Reply)

  /** The five rules, in the order the handler tries them. */
  function Rules(e: ErrorInfo): seq<Rule> {
    [ Rule(e.name == "CastError", Reply(400, InvalidId(e.value))),
      Rule(e.code == Some(DuplicateKeyCode),
           Reply(400, if e.keyValue == [] then DuplicateKey(None, None)
                      else DuplicateKey(Some(e.keyValue[0].0), Some(e.keyValue[0].1)))),
      Rule(e.name == "ValidationError", Reply(400, InvalidData(JoinWith(e.fieldMessages, ", ")))),
      Rule(e.name == "JsonWebTokenError", Reply(401, TokenInvalid)),
      Rule(e.name == "TokenExpiredError", Reply(401, TokenExpired)) ]
  }

  /** Running the rules in order, each matching one overwriting the current result. */
  function RunRules(rules: seq<Rule>, current: Reply): Reply {
    if rules == [] then current
    else RunRules(rules[1..], if rules[0].matches then rules[0].reply else current)
  }

  /** The names whose rules come after the duplicate-key rule. */
  predicate IsTokenOrValidation(name: string) {
    name == "ValidationError" || name == "JsonWebTokenError" || name == "TokenExpiredError"
  }

  /** Running one more rule: it decides if it matches, else the earlier ones do. */
  lemma {:induction false} RunRulesSnoc(rules: seq<Rule>, x: Rule, current: Reply)
    ensures RunRules(rules + [x], current) == if x.matches then x.reply else RunRules(rules, current)
  {
    if rules != [] {
      assert (rules + [x])[1..] == rules[1..] + [x];
      RunRulesSnoc(rules[1..], x, if rules[0].matches then rules[0].reply else current);
    }
  }

  /** With five rules, the last matching one decides. */
  lemma {:induction false} RunFiveRules(rules: seq<Rule>, current: Reply)
    requires |rules| == 5
    ensures RunRules(rules, current) ==
      if rules[4].matches then rules[4].reply
      else if rules[3].matches then rules[3].reply
      else if rules[2].matches then rules[2].reply
      else if rules[1].matches then rules[1].reply
      else if rules[0].matches then rules[0].reply
      else current
  {
    assert rules == rules[..4] + [rules[4]];
    RunRulesSnoc(rules[..4], rules[4], current);
    assert rules[..4] == rules[..3] + [rules[3]];
    RunRulesSnoc(rules[..3], rules[3], current);
    assert rules[..3] == rules[..2] + [rules[2]];
    RunRulesSnoc(rules[..2], rules[2], current);
    assert rules[..2] == rules[..1] + [rules[1]];
    RunRulesSnoc(rules[..1], rules[1], current);
    assert rules[..1] == [] + [rules[0]];
    RunRulesSnoc([], rules[0], current);
  }

  /** The classification as the handler's cascade decides it, last matching rule first.
      It agrees with running the rules in order, and each kind of error gets its status. */
  function HandleError(e: ErrorInfo): (r: Reply)
    ensures r == RunRules(Rules(e), Fallback(e))
    ensures e.name == "CastError" && e.code != Some(DuplicateKeyCode) ==> r == Reply(400, InvalidId(e.value))
    ensures (e.code == Some(DuplicateKeyCode) && !IsTokenOrValidation(e.name))
              ==> r.status == 400 && r.message.DuplicateKey?
    ensures (e.code == Some(DuplicateKeyCode) && e.keyValue != [] && !IsTokenOrValidation(e.name))
              ==> r.message == DuplicateKey(Some(e.keyValue[0].0), Some(e.keyValue[0].1))
    ensures e.name == "ValidationError" ==> r == Reply(400, InvalidData(JoinWith(e.fieldMessages, ", ")))
    ensures e.name == "JsonWebTokenError" ==> r == Reply(401, TokenInvalid)
    ensures e.name == "TokenExpiredError" ==> r == Reply(401, TokenExpired)
    ensures (forall rule :: rule in Rules(e) ==> !rule.matches) ==> r == Fallback(e)
    ensures r.status == 500 ==> r.message == Fallback(e).message
  {
    var rules := Rules(e);
    RunFiveRules(rules, Fallback(e));
    if rules[4].matches then rules[4].reply
    else if rules[3].matches then rules[3].reply
    else if rules[2].matches then rules[2].reply
    else if rules[1].matches then rules[1].reply
    else if rules[0].matches then rules[0].reply
    else Fallback(e)
  }
}
