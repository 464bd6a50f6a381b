/** The parts of the Cognito user-pool API the Lambda handlers use: user attributes, the commands sent and
    what the service answered. The service itself is not modelled: its answers are inputs. */
module Cognito {
  import opened Wrappers
  import opened Json
  import opened Http

  /** A user attribute; either half may be absent. */
  datatype Attribute = Attribute(name: Option<string>, value: Option<string>)

  /** The commands the handlers send. User names given by a client are JSON values; the others are strings. */
  datatype Command =
    | InitiateAuth(clientId: string, username: Value, password: Value)
    | AdminGetUser(userPoolId: string, username: Value)
    | AdminCreateUser(userPoolId: string, newUsername: string, attributes: seq<Attribute>, messageAction: string)
    | AdminSetUserPassword(userPoolId: string, user: string, newPassword: string, permanent: bool)

  /** What `AdminGetUserCommand` did: an error with its `name`, or the user record's fields. */
  datatype UserReply =
    | UserThrew(userError: string)
    | UserResult(userName: Option<string>, userStatus: Option<string>, attributes: Option<seq<Attribute>>)

  /** A command whose result is not read: it either returned or threw. */
  datatype CallReply = Returned | Threw

  /** What one invocation did: the response returned and the Cognito commands sent, in order. */
  datatype CognitoOutcome = CognitoOutcome(response: Response, sent: seq<Command>)
}
