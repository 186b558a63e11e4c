/** The step-function trigger (`transcribe/audio_to_transcribe.py`): for every SQS record
    it reads the S3 event in the body, builds the workflow input and starts an execution
    named after the job; any fault while doing so records the message id and processing
    goes on with the next record. */
module StepTrigger {
  import opened Wrappers
  import opened SqsBatch
  import JobNames
  import DocxFormat

  /** The workflow input. */
  datatype StepInput = StepInput(
    jobName: string,
    mediaUri: string,
    outputPrefix: string,
    elapsedTime: int,
    originalS3Key: string,
    originalS3Bucket: string)

  /** A `start_execution` call: the execution name and its input. */
  datatype Execution = Execution(name: string, input: StepInput)

  /** The execution started for an object, given the uuid drawn for it and the date
      (`%Y%m%d`) the module was loaded on. */
  function ExecutionFor(obj: S3Object, uuid: string, today: string): Execution
  {
    var jobName := JobNames.JobName(obj.key, uuid);
    Execution("ats-" + jobName, StepInput(jobName, MediaUri(obj), today + "/", 0, obj.key, obj.bucket))
  }

  /** The execution is named `ats-` and the job name; the job name is the sanitised key,
      `-` and the uuid, and keeps to the allowed characters when the uuid does; the
      workflow starts at zero elapsed time under the date's prefix; and the media URI reads
      back as the original bucket and key. */
  lemma ExecutionSpec(obj: S3Object, uuid: string, today: string)
    ensures var e := ExecutionFor(obj, uuid, today);
      var k := |JobNames.Sanitize(obj.key)|;
      && e.name == "ats-" + e.input.jobName
      && e.input.jobName[..k] == JobNames.Sanitize(obj.key)
      && e.input.jobName[k] == '-'
      && e.input.jobName[k + 1..] == uuid
      && (JobNames.AllAllowed(uuid) ==> JobNames.AllAllowed(e.input.jobName))
      && e.input.elapsedTime == 0
      && e.input.outputPrefix == today + "/"
      && ('/' !in obj.bucket && ':' !in obj.bucket && ':' !in obj.key ==>
            DocxFormat.FindBucketKey(e.input.mediaUri)
              == Ok(DocxFormat.S3Location(e.input.originalS3Bucket, e.input.originalS3Key)))
  {
    JobNames.JobNameSpec(obj.key, uuid);
    if '/' !in obj.bucket && ':' !in obj.bucket && ':' !in obj.key {
      MediaUriRoundTrip(obj);
    }
  }

  /** A record fails when its body cannot be read or the execution is refused. */
  predicate Fails(record: SqsRecord, accepted: bool)
  {
    record.body.Err? || !accepted
  }

  /** The executions started for the first `n` records: one per record whose body could
      be read, whether or not the call then succeeds. */
  function Started(records: seq<SqsRecord>, uuids: seq<string>, today: string, n: nat): (r: seq<Execution>)
    requires n <= |records| == |uuids|
    ensures |r| <= n
  {
    if n == 0 then []
    else
      Started(records, uuids, today, n - 1)
        + (if records[n - 1].body.Ok? then [ExecutionFor(records[n - 1].body.value, uuids[n - 1], today)] else [])
  }

  /** The message ids of the failing records among the first `n`, in record order. */
  function Failures(records: seq<SqsRecord>, accepted: seq<bool>, n: nat): (r: seq<string>)
    requires n <= |records| == |accepted|
    ensures |r| <= n
  {
    if n == 0 then []
    else
      Failures(records, accepted, n - 1)
        + (if Fails(records[n - 1], accepted[n - 1]) then [records[n - 1].messageId] else [])
  }

  /** Records are handled one after the other and never undone: the executions started
      for the first `k` records are the first ones started for the first `n`. */
  lemma {:induction false} StartedPrefix(records: seq<SqsRecord>, uuids: seq<string>, today: string, k: nat, n: nat)
    requires k <= n <= |records| == |uuids|
    ensures Started(records, uuids, today, k) <= Started(records, uuids, today, n)
    decreases n
  {
    if k < n {
      StartedPrefix(records, uuids, today, k, n - 1);
    }
  }

  /** The failures among the first `k` records are the first failures among the first
      `n`. */
  lemma {:induction false} FailuresPrefix(records: seq<SqsRecord>, accepted: seq<bool>, k: nat, n: nat)
    requires k <= n <= |records| == |accepted|
    ensures Failures(records, accepted, k) <= Failures(records, accepted, n)
    decreases n
  {
    if k < n {
      FailuresPrefix(records, accepted, k, n - 1);
    }
  }

  /** Every readable record gets its execution, in record order, whatever happened to
      the records before it. */
  lemma ExecutionStarted(records: seq<SqsRecord>, uuids: seq<string>, today: string, k: nat)
    requires k < |records| == |uuids| && records[k].body.Ok?
    ensures var started := Started(records, uuids, today, |records|);
      var before := |Started(records, uuids, today, k)|;
      before < |started| && started[before] == ExecutionFor(records[k].body.value, uuids[k], today)
  {
    StartedPrefix(records, uuids, today, k + 1, |records|);
  }

  /** Every failing record's id is reported, after the ids of the earlier failures: a
      fault does not stop the batch. */
  lemma FailureReported(records: seq<SqsRecord>, accepted: seq<bool>, k: nat)
    requires k < |records| == |accepted| && Fails(records[k], accepted[k])
    ensures var failures := Failures(records, accepted, |records|);
      var before := |Failures(records, accepted, k)|;
      before < |failures| && failures[before] == records[k].messageId
  {
    FailuresPrefix(records, accepted, k + 1, |records|);
  }

  /** No failure is reported exactly when every record was read and its execution
      started. */
  lemma {:induction false} NoFailuresIff(records: seq<SqsRecord>, accepted: seq<bool>, n: nat)
    requires n <= |records| == |accepted|
    ensures Failures(records, accepted, n) == [] <==> forall k :: 0 <= k < n ==> !Fails(records[k], accepted[k])
    decreases n
  {
    if n > 0 {
      NoFailuresIff(records, accepted, n - 1);
    }
  }

  /** `lambda_handler`, given the uuid drawn for each record and whether the state
      machine accepts each execution: the executions it starts, and its response. */
  method LambdaHandler(records: seq<SqsRecord>, uuids: seq<string>, accepted: seq<bool>, today: string)
    returns (executions: seq<Execution>, response: SqsResponse)
    requires |uuids| == |records| && |accepted| == |records|
    ensures executions == Started(records, uuids, today, |records|)
    ensures response == BatchResponse(Failures(records, accepted, |records|))
    ensures response.batchItemFailures.None? <==> forall k :: 0 <= k < |records| ==> !Fails(records[k], accepted[k])
  {
    executions := [];
    var failures: seq<string> := [];
    var i := 0;
    while i < |records|
      invariant i <= |records|
      invariant executions == Started(records, uuids, today, i)
      invariant failures == Failures(records, accepted, i)
    {
      var record := records[i];
      match record.body {
        case Err(_) =>
          failures := failures + [record.messageId];
        case Ok(obj) =>
          var jobName := JobNames.Sanitize(obj.key) + "-" + uuids[i];
          var mediaUri := "s3://" + obj.bucket + "/" + obj.key;
          var stepInput := StepInput(jobName, mediaUri, today + "/", 0, obj.key, obj.bucket);
          executions := executions + [Execution("ats-" + jobName, stepInput)];
          if !accepted[i] {
            failures := failures + [record.messageId];
          }
      }
      i := i + 1;
    }
    var sqsResponse := SqsResponse(None);
    if |failures| > 0 {
      sqsResponse := SqsResponse(Some(failures));
    }
    response := sqsResponse;
    NoFailuresIff(records, accepted, |records|);
  }
}
