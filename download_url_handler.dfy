/**
 * The download-URL Lambda: for `{os: "windows" | "mac"}` it pre-signs a one-hour S3 GET for the desktop
 * application's installer of that operating system. The S3 presigner is a foreign call: its result is a
 * parameter, and the model records the request the handler asks it to sign.
 */
module DownloadUrlHandler {
  import opened Wrappers
  import opened Assoc
  import opened Json
  import opened Http
  import opened Lambda

  const MissingOs := "Missing required field: os"
  const InvalidOs := "Invalid operating system. Must be 'windows' or 'mac'"
  const BucketNotFound := "S3 bucket not found"
  const FileNotFound := "Application file not found for this operating system"
  const GenerateFailed := "Failed to generate download URL"
  const ProcessFailed := "Failed to process download URL request"

  /** The methods named in this handler's 405 answer. */
  const PostOptions: seq<string> := ["POST", "OPTIONS"]

  /** Seconds a pre-signed URL stays valid. */
  const ExpiresIn := 3600

  /** The `GetObjectCommand` the handler has signed. */
  datatype ObjectRequest = ObjectRequest(
    bucket: string,
    key: string,
    contentDisposition: string,
    contentType: string,
    expiresIn: int)

  /** What `getSignedUrl` did: a URL, or an error with its `name`. */
  datatype Presign = Signed(url: string) | Failed(name: string)

  /** The response and the request handed to the presigner, if the handler got that far. */
  datatype DownloadOutcome = DownloadOutcome(response: Response, request: Option<ObjectRequest>)

  /** An environment variable in a template literal: `undefined` prints as the word. */
  function Template(v: Option<string>): string {
    if v.Some? then v.value else "undefined"
  }

  /** The S3 folder of each supported operating system. */
  function Folder(os: string): string {
    if os == "windows" then "win-app/" else "mac-app/"
  }

  /** `['windows', 'mac'].includes(os)`: strict equality, so only those two strings pass. */
  predicate SupportedOs(os: Value) {
    os == JStr("windows") || os == JStr("mac")
  }

  /** The signed request for `os`: the installer under that system's folder, offered as a download under
      the application's name. */
  function RequestFor(bucket: string, appName: Option<string>, os: string): (r: ObjectRequest)
    ensures r.bucket == bucket && r.expiresIn == 3600 && r.contentType == "application/octet-stream"
    ensures r.key == Folder(os) + Template(appName)
    ensures r.contentDisposition == "attachment; filename=\"" + Template(appName) + "\""
  {
    ObjectRequest(bucket, Folder(os) + Template(appName), "attachment; filename=\"" + Template(appName) + "\"",
                  "application/octet-stream", ExpiresIn)
  }

  /** The inner `catch`: the S3 error's name picks the message. */
  function PresignError(name: string): (r: Response)
    ensures r.statusCode == 500
    ensures name == "NoSuchBucket" ==> r == ServerError(BucketNotFound)
    ensures name == "NoSuchKey" ==> r == ServerError(FileNotFound)
    ensures name != "NoSuchBucket" && name != "NoSuchKey" ==> r == ServerError(GenerateFailed)
  {
    if name == "NoSuchBucket" then ServerError(BucketNotFound)
    else if name == "NoSuchKey" then ServerError(FileNotFound)
    else ServerError(GenerateFailed)
  }

  /** `handleGetDownloadUrl(body)`, with the bucket and application name from the environment. */
  function GetDownloadUrl(bucket: string, appName: Option<string>, body: Option<string>,
                          jsonParse: string -> Option<Value>, presign: Presign): (o: DownloadOutcome)
    requires ParsesObjects(jsonParse)
    // a missing body, malformed JSON and a `null` payload all reach the outer `catch`
    ensures Payload(body, jsonParse).Err? ==> o == DownloadOutcome(ServerError(ProcessFailed), None)
    ensures Payload(body, jsonParse).Ok? && !Truthy(Get(Payload(body, jsonParse).value, "os")) ==>
      o == DownloadOutcome(BadRequestResponse(MissingOs), None)
    ensures Payload(body, jsonParse).Ok? && Truthy(Get(Payload(body, jsonParse).value, "os"))
            && !SupportedOs(Get(Payload(body, jsonParse).value, "os").value) ==>
      o == DownloadOutcome(BadRequestResponse(InvalidOs), None)
    // a URL is requested exactly for a supported system, and for that system's installer
    ensures o.request.Some? <==>
      Payload(body, jsonParse).Ok? && Get(Payload(body, jsonParse).value, "os").Some?
      && SupportedOs(Get(Payload(body, jsonParse).value, "os").value)
    ensures o.request.Some? ==>
      o.request.value == RequestFor(bucket, appName, Get(Payload(body, jsonParse).value, "os").value.s)
    ensures o.response.statusCode == 200 <==> o.request.Some? && presign.Signed?
    ensures o.response.statusCode == 200 ==>
      Field(o.response.body, "downloadUrl") == Some(JStr(presign.url))
      && Field(o.response.body, "message") ==
           Some(JStr("Download URL generated for " + Get(Payload(body, jsonParse).value, "os").value.s))
    ensures o.request.Some? && presign.Failed? ==> o.response == PresignError(presign.name)
  {
    match Payload(body, jsonParse)
    case Err(_) => DownloadOutcome(ServerError(ProcessFailed), None)
    case Ok(fields) =>
      var os := Get(fields, "os");
      if !Truthy(os) then DownloadOutcome(BadRequestResponse(MissingOs), None)
      else if !SupportedOs(os.value) then DownloadOutcome(BadRequestResponse(InvalidOs), None)
      else
        var request := RequestFor(bucket, appName, os.value.s);
        match presign
        case Failed(name) => DownloadOutcome(PresignError(name), Some(request))
        case Signed(url) =>
          var data := JObj([("message", JStr("Download URL generated for " + os.value.s)), ("downloadUrl", JStr(url))]);
          assert Get(data.fields[1..], "downloadUrl") == Some(JStr(url));
          DownloadOutcome(CreateResponse(OK, data, []), Some(request))
  }

  /** The Lambda entry point. The outer `catch` ("Internal server error") is unreachable: every error
      `handleGetDownloadUrl` can meet is caught inside it. */
  function Handle(bucketName: Option<string>, appName: Option<string>, event: Event,
                  jsonParse: string -> Option<Value>, presign: Presign): (o: DownloadOutcome)
    requires ParsesObjects(jsonParse)
    ensures event.httpMethod == "OPTIONS" ==> o == DownloadOutcome(OptionsResponse(), None)
    ensures event.httpMethod != "OPTIONS" && !Configured(bucketName) ==>
      o == DownloadOutcome(ServerError(ConfigurationError), None)
    ensures event.httpMethod == "POST" && Configured(bucketName) ==>
      o == GetDownloadUrl(bucketName.value, appName, event.body, jsonParse, presign)
    ensures event.httpMethod !in PostOptions && Configured(bucketName) ==>
      o == DownloadOutcome(MethodNotAllowedResponse(PostOptions), None)
    // nothing is signed without a configured bucket, and only for a POST
    ensures o.request.Some? ==> event.httpMethod == "POST" && o.request.value.bucket == bucketName.value
  {
    if event.httpMethod == "OPTIONS" then DownloadOutcome(OptionsResponse(), None)
    else if !Configured(bucketName) then DownloadOutcome(ServerError(ConfigurationError), None)
    else if event.httpMethod == "POST" then GetDownloadUrl(bucketName.value, appName, event.body, jsonParse, presign)
    else DownloadOutcome(MethodNotAllowedResponse(PostOptions), None)
  }

  /** The two systems get different objects of the same name: the folders differ, the file name does not,
      and the download is offered under the object's own file name. */
  lemma OsKeysDiffer(bucket: string, appName: Option<string>)
    ensures var w := RequestFor(bucket, appName, "windows");
      var m := RequestFor(bucket, appName, "mac");
      w.key != m.key
      && w.key[|"win-app/"|..] == m.key[|"mac-app/"|..] == Template(appName)
      && w.contentDisposition == m.contentDisposition
  {
    var w := RequestFor(bucket, appName, "windows");
    var m := RequestFor(bucket, appName, "mac");
    assert w.key[0] == 'w' && m.key[0] == 'm';
  }

  /** Malformed JSON is not reported as the client's error here: it is a 500, not the 400 the table
      handlers answer. */
  lemma InvalidJsonIsServerError(bucket: string, appName: Option<string>, body: string,
                                 jsonParse: string -> Option<Value>, presign: Presign)
    requires ParsesObjects(jsonParse) && body != "" && jsonParse(body).None?
    ensures GetDownloadUrl(bucket, appName, Some(body), jsonParse, presign).response.statusCode == 500
    ensures Caught(InvalidJson, ProcessFailed).statusCode == 400
  {
    CaughtMessages(ProcessFailed);
  }
}
