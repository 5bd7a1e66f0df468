# Request dispatch core of the artipie `http` library, in Dafny

This project models three pieces of the request-dispatch layer of the artipie
`http` library and proves what each promises.

- **Permission evaluation** (`Permission.ByName`, `Permission.All`,
  `Permission.Any`). A permission is a tree. Its leaves ask an external
  permission store about the synonym names of an action. Its inner nodes are
  conjunctions (`All`) and disjunctions (`Any`). The store is an oracle
  function `(user, name) -> bool`, one per leaf, as each `ByName` holds its
  own `Permissions`. Besides the decision, the model computes the sequence of
  names asked of the stores. This makes the short-circuit behaviour of the
  synonym loop and of `allMatch`/`anyMatch` a stated property. The synonym
  loop, a `for` loop with `break`, is also an imperative method proved against
  that specification.
- **First-match routing** (`SliceRoute`). A route table is an ordered sequence
  of paths; a path is a function from a request to an optional response. The
  table answers with the response of the first path that gives one, or with
  404 and the UTF-8 body `not found`. The model also counts how many paths the
  lazy stream invokes. Every path is applied to the one request value, so each
  invoked path sees the same line, headers and body.
- **Group result** (`GroupResult`). It is a class with `const` fields, so its
  status, headers and body cannot change after construction. `replay` and
  `cancel` are methods on two external collaborators, each modelled as a class
  that logs the calls it receives: the connection (`accept`) and the body
  publisher (`subscribe`). `success()` parses the status code as Java's
  `Integer.parseInt` does, optional sign and 32-bit range included. It
  requires a code that parses. The cancel subscriber is a function from
  reactive-streams signals to replies. A lemma runs it against any signal
  sequence.

`GroupResult` has no pending, replayed or cancelled state. It has no guard
against replaying after cancelling, and it does not deduplicate cancels:
calling `cancel` twice subscribes the cancel subscriber twice. `success()`
tests a parsed integer, not the text of the code, so `"+200"` and `"0200"`
are successes too (`Decimal.ParseIntExamples`). `Group.SuccessIsTwoXX` shows
that on canonical decimal text the numeric test and the "2xx" class agree.

Files: `wrappers.dfy` (Option), `search.dfy` (the first-match search shared by
the synonym loop and the route table), `http.dfy` (status, headers, response,
bytes), `decimal.dfy` (`Integer.parseInt` / `Integer.toString`),
`permission.dfy`, `slice_route.dfy`, `group_result.dfy`.

## Model

| member | source | states |
|---|---|---|
| Search.FirstIndex | src/main/java/com/artipie/http/rt/SliceRoute.java:85-89 | the index found is the first whose element passes the test; None iff no element passes |
| Search.FirstIndexIgnoresSuffix | src/main/java/com/artipie/http/rt/SliceRoute.java:85-89 | the search does not look past the first hit: sequences agreeing up to it give the same index |
| Permissions.Allowed | src/main/java/com/artipie/http/auth/Permission.java:78-166 | `Permission.allowed`: a `ByName` allows iff its store grants some synonym (contract); the `All` and `Any` cases are fixed by AllIsConjunction and AnyIsDisjunction |
| Permissions.Queries | src/main/java/com/artipie/http/auth/Permission.java:79-166 | the names asked of the stores while evaluating: each is a synonym of some `ByName` leaf, and there are no more of them than the leaves hold synonyms; the `...Asks...` lemmas fix their order and the stop-at-first lemmas their cut-off |
| Permissions.SynonymsAsked | src/main/java/com/artipie/http/auth/Permission.java:79-86 | the names asked are a prefix of the synonyms; all but the last are denied; the last is granted iff the action is allowed; a denial asks every synonym |
| Permissions.ByNameAllowed | src/main/java/com/artipie/http/auth/Permission.java:77-87 | the loop returns true iff some synonym is granted, equals the tree semantics, and asks the store exactly the synonyms up to the first grant |
| Permissions.ByNameGrantsAnySynonym | src/main/java/com/artipie/http/auth/Permission.java:78-87 | `ByName` allows iff the store grants at least one synonym |
| Permissions.ByNameStopsAtFirstGrant | src/main/java/com/artipie/http/auth/Permission.java:80-84 | after the first granted synonym nothing more is asked, and later synonyms cannot change the decision |
| Permissions.TwoSynonyms | src/main/java/com/artipie/http/auth/Permission.java:80-86 | with synonyms [a, b] the action is allowed iff a or b is granted |
| Permissions.AllIsConjunction | src/main/java/com/artipie/http/auth/Permission.java:121-126 | `All` allows iff every origin allows |
| Permissions.AnyIsDisjunction | src/main/java/com/artipie/http/auth/Permission.java:161-166 | `Any` allows iff some origin allows |
| Permissions.EmptyIdentities | src/main/java/com/artipie/http/auth/Permission.java:78-166 | no synonyms denies, empty `All` allows, empty `Any` denies, and none of them asks a store |
| Permissions.AllStopsAtFirstDenial | src/main/java/com/artipie/http/auth/Permission.java:123-125 | origins after the first denying one are not evaluated: lists agreeing up to it give the same decision (deny) and the same names asked |
| Permissions.AnyStopsAtFirstGrant | src/main/java/com/artipie/http/auth/Permission.java:163-165 | origins after the first allowing one are not evaluated: lists agreeing up to it give the same decision (allow) and the same names asked |
| Permissions.AllAsksUpToFirstDenial | src/main/java/com/artipie/http/auth/Permission.java:123-125 | when origin k is the first to deny, the names asked by `All` are those of origins 0..k, in list order |
| Permissions.AllAsksEveryOriginWhenAllowed | src/main/java/com/artipie/http/auth/Permission.java:123-125 | when no origin denies, `All` asks every origin's names, in list order |
| Permissions.AnyAsksUpToFirstGrant | src/main/java/com/artipie/http/auth/Permission.java:163-165 | when origin k is the first to allow, the names asked by `Any` are those of origins 0..k, in list order |
| Permissions.AnyAsksEveryOriginWhenDenied | src/main/java/com/artipie/http/auth/Permission.java:163-165 | when no origin allows, `Any` asks every origin's names, in list order |
| Routing.Respond | src/main/java/com/artipie/http/rt/SliceRoute.java:81-96 | the response is that of the first path, in order, that answers; if none answers it is the 404 "not found" response |
| Routing.Invoked | src/main/java/com/artipie/http/rt/SliceRoute.java:85-89 | the paths invoked are a prefix of the table; all but the last give nothing; it ends at the first path that answers, or covers the whole table |
| Routing.RespondUsesLastInvoked | src/main/java/com/artipie/http/rt/SliceRoute.java:85-95 | the response comes from the last invoked path, or is the fallback |
| Routing.LaterPathsIgnored | src/main/java/com/artipie/http/rt/SliceRoute.java:85-89 | a later path never overrides an earlier match: tables agreeing on the invoked prefix invoke the same paths and respond alike |
| Routing.EmptyTableNotFound | src/main/java/com/artipie/http/rt/SliceRoute.java:90-95 | an empty table invokes nothing and answers 404 "not found" |
| Routing.NotFoundBody | src/main/java/com/artipie/http/rt/SliceRoute.java:90-95 | the fallback has status code 404, no headers, and the nine UTF-8 bytes of "not found" as body |
| Decimal.ParseInt | src/main/java/com/artipie/http/group/GroupResult.java:113 | a parsed code is a 32-bit integer; the empty string and a lone sign do not parse ; ParseIntValue gives the exact result, overflow included |
| Decimal.ParseIntValue | src/main/java/com/artipie/http/group/GroupResult.java:113 | on every digit run, with '+', '-' or no sign, the result is the value when it fits in 32 bits and NumberFormatException (None) when it overflows |
| Decimal.ParseIntAccepts | src/main/java/com/artipie/http/group/GroupResult.java:113 | a code that parses starts with '+', '-' or a digit, holds at least one digit, and is digits after its first character; anything else raises NumberFormatException |
| Decimal.LeadingZero | src/main/java/com/artipie/http/group/GroupResult.java:113 | a leading zero does not change the value of a run of digits |
| Decimal.ParseIntLenient | src/main/java/com/artipie/http/group/GroupResult.java:113 | an explicit '+' or a leading zero before a run of digits, after a '-' too, leaves the parsed value unchanged |
| Decimal.ParseIntExamples | src/main/java/com/artipie/http/group/GroupResult.java:113 | "200", "+200" and "0200" all parse to 200, and "-0" parses to 0 |
| Decimal.ParseToDecimal | src/main/java/com/artipie/http/group/GroupResult.java:113 | parsing the decimal text of any 32-bit integer gives that integer back |
| Decimal.TwoHundredsAreTwoXX | src/main/java/com/artipie/http/group/GroupResult.java:115 | n is in [200, 300) iff its decimal text has three digits starting with '2' |
| Group.SuccessCode | src/main/java/com/artipie/http/group/GroupResult.java:112-116 | the success test on a code that parses; on a code in canonical decimal form it holds iff the code has three digits starting with '2' |
| Group.GroupResult.Success | src/main/java/com/artipie/http/group/GroupResult.java:112-116 | `success()`, defined when the status code parses; on a canonical code it holds iff the code is in the 2xx class |
| Group.TwoXXClass | src/main/java/com/artipie/http/group/GroupResult.java:115 | for every integer n, 200 <= n < 300 iff `Integer.toString(n)` has three characters starting with '2' |
| Group.SuccessIsTwoXX | src/main/java/com/artipie/http/group/GroupResult.java:112-116 | for every 32-bit code written as `Integer.toString` writes it, the code parses and `success()` holds iff it is in the 2xx class |
| Group.SuccessBoundaries | src/main/java/com/artipie/http/group/GroupResult.java:115 | "200" and "299" are successes; "199" and "300" are not |
| Group.CancelSub | src/main/java/com/artipie/http/group/GroupResult.java:49-69 | `CANCEL_SUB` cancels exactly on `onSubscribe` and never requests data; CancelSubNeverRequests and CancelSubCancelsImmediately give its effect on a subscription |
| Group.CancelSubNeverRequests | src/main/java/com/artipie/http/group/GroupResult.java:55-68 | the cancel subscriber never adds demand, whatever signals it receives, and never un-cancels |
| Group.CancelSubCancelsImmediately | src/main/java/com/artipie/http/group/GroupResult.java:49-53 | after `onSubscribe` alone the subscription is cancelled with no demand, and it stays so after any later signals |
| Group.GroupResult.constructor | src/main/java/com/artipie/http/group/GroupResult.java:92-97 | the result holds exactly the given status, headers and body, in constant fields |
| Group.GroupResult.Replay | src/main/java/com/artipie/http/group/GroupResult.java:104-106 | the connection receives one `accept` call with the stored status, headers and body, and nothing else changes |
| Group.GroupResult.Cancel | src/main/java/com/artipie/http/group/GroupResult.java:121-123 | the body publisher receives one `subscribe` call with the cancel subscriber, and nothing else changes |

## Left out

- The `CompletionStage` that `replay` returns and the asynchronous delivery of the body through `Connection.accept`: the model records the call only.
- The reactive-streams protocol between publisher and subscriber: a publisher only logs its subscribers, and the cancel subscriber is run against a given signal sequence.
- `GroupResponse`, which orders and resolves the results of a slice group concurrently, is not part of this model.
- The `ByName(String, Permissions)` constructor: it parses the action with `Action.ByString`, which is not part of this model. Actions are given as their sequence of synonym names.
- The varargs constructors of `All`, `Any` and `SliceRoute` turn their arguments into a list in the same order. Both constructors of each class are the one datatype constructor over a sequence, so there is nothing separate to state.
- `Permissions`, `Authentication.User`, `RsStatus`, `Headers`, `RsWithStatus` and `RsWithBody` are opaque. Users are names, stores are oracle functions, statuses are code strings, and the 404 fallback has no headers.
- Decimal.ParseInt: accepts ASCII digits only, while `Integer.parseInt` also accepts other Unicode decimal digits.
- The test helper `ByteFlowAsString`, which collects a byte flow into a string, is not part of this model.
