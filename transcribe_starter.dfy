/** The transcription starter (`lambda/audio_to_transcribe.py`): for every SQS record it
    reads the S3 event in the body and starts a speaker-labelled, language-identifying
    transcription job. Reading the body is outside the `try`, so a malformed body ends
    the whole invocation with its fault; only a refused job start is reported back as a
    failed message. */
module TranscribeStarter {
  import opened Wrappers
  import opened SqsBatch
  import JobNames
  import DocxFormat

  /** The `Settings` of a job. */
  datatype Settings = Settings(showSpeakerLabels: bool, maxSpeakerLabels: int)

  /** A `start_transcription_job` call. */
  datatype JobRequest = JobRequest(
    jobName: string,
    settings: Settings,
    identifyMultipleLanguages: bool,
    mediaFileUri: string,
    outputBucketName: string,
    outputKey: string)

  /** The most speakers a job is asked to tell apart. */
  const MaxSpeakers: int := 10

  /** The request for an object, given the uuid drawn for it, the `BUCKET` setting and
      the date (`%Y%m%d`) the module was loaded on. */
  function RequestFor(obj: S3Object, uuid: string, outputBucket: string, today: string): JobRequest
  {
    JobRequest(JobNames.JobName(obj.key, uuid), Settings(true, MaxSpeakers), true, MediaUri(obj), outputBucket, today + "/")
  }

  /** Every job labels up to ten speakers and identifies the languages itself, writes
      under the date's prefix of the output bucket, is named after the sanitised key and
      the uuid, and reads the object it was started for. */
  lemma RequestSpec(obj: S3Object, uuid: string, outputBucket: string, today: string)
    ensures var q := RequestFor(obj, uuid, outputBucket, today);
      var k := |JobNames.Sanitize(obj.key)|;
      && q.settings.showSpeakerLabels && q.settings.maxSpeakerLabels == 10
      && q.identifyMultipleLanguages
      && q.outputBucketName == outputBucket && q.outputKey == today + "/"
      && q.jobName[..k] == JobNames.Sanitize(obj.key)
      && q.jobName[k] == '-'
      && q.jobName[k + 1..] == uuid
      && (JobNames.AllAllowed(uuid) ==> JobNames.AllAllowed(q.jobName))
      && ('/' !in obj.bucket && ':' !in obj.bucket && ':' !in obj.key ==>
            DocxFormat.FindBucketKey(q.mediaFileUri) == Ok(DocxFormat.S3Location(obj.bucket, obj.key)))
  {
    JobNames.JobNameSpec(obj.key, uuid);
    if '/' !in obj.bucket && ':' !in obj.bucket && ':' !in obj.key {
      MediaUriRoundTrip(obj);
    }
  }

  /** Where the handler stands after the first `n` records: the jobs it asked for, the
      message ids of refused starts, and the fault of a malformed body if one ended it. */
  datatype Progress = Progress(requests: seq<JobRequest>, failures: seq<string>, raised: Option<Fault>)

  /** The handler over the first `n` records: once a body fails to read, nothing after
      it happens. */
  function Run(records: seq<SqsRecord>, uuids: seq<string>, accepted: seq<bool>, outputBucket: string,
               today: string, n: nat): (p: Progress)
    requires n <= |records| == |uuids| == |accepted|
    ensures |p.requests| <= n && |p.failures| <= |p.requests|
  {
    if n == 0 then Progress([], [], None)
    else
      var p := Run(records, uuids, accepted, outputBucket, today, n - 1);
      var record := records[n - 1];
      if p.raised.Some? then p
      else if record.body.Err? then p.(raised := Some(record.body.fault))
      else
        p.(requests := p.requests + [RequestFor(record.body.value, uuids[n - 1], outputBucket, today)],
           failures := p.failures + (if accepted[n - 1] then [] else [record.messageId]))
  }

  /** The invocation's outcome after all records: the fault it raised, or its
      response. */
  function Outcome(p: Progress): (r: Result<SqsResponse>)
    ensures r.Err? <==> p.raised.Some?
    ensures p.raised.Some? ==> r.fault == p.raised.value
    ensures p.raised.None? ==> r.value.batchItemFailures.Some? == (p.failures != [])
  {
    if p.raised.Some? then Err(p.raised.value) else Ok(BatchResponse(p.failures))
  }

  /** A raised fault stays raised and nothing more is asked for. */
  lemma {:induction false} RunStops(records: seq<SqsRecord>, uuids: seq<string>, accepted: seq<bool>,
                                    outputBucket: string, today: string, k: nat, n: nat)
    requires k <= n <= |records| == |uuids| == |accepted|
    requires Run(records, uuids, accepted, outputBucket, today, k).raised.Some?
    ensures Run(records, uuids, accepted, outputBucket, today, n) == Run(records, uuids, accepted, outputBucket, today, k)
    decreases n
  {
    if k < n {
      RunStops(records, uuids, accepted, outputBucket, today, k, n - 1);
    }
  }

  /** While every body reads, each record gets its job in record order, and the refused
      ones are exactly the reported failures. */
  lemma RunAllRead(records: seq<SqsRecord>, uuids: seq<string>, accepted: seq<bool>,
                   outputBucket: string, today: string, n: nat)
    requires n <= |records| == |uuids| == |accepted|
    requires forall k :: 0 <= k < n ==> records[k].body.Ok?
    ensures var p := Run(records, uuids, accepted, outputBucket, today, n);
      && p.raised.None?
      && |p.requests| == n
      && (forall k :: 0 <= k < n ==> p.requests[k] == RequestFor(records[k].body.value, uuids[k], outputBucket, today))
      && (p.failures == [] <==> forall k :: 0 <= k < n ==> accepted[k])
  {
    RunRequests(records, uuids, accepted, outputBucket, today, n);
    RunFailures(records, uuids, accepted, outputBucket, today, n);
  }

  /** While every body reads, each record gets its job in record order. */
  lemma {:induction false} RunRequests(records: seq<SqsRecord>, uuids: seq<string>, accepted: seq<bool>,
                                       outputBucket: string, today: string, n: nat)
    requires n <= |records| == |uuids| == |accepted|
    requires forall k :: 0 <= k < n ==> records[k].body.Ok?
    ensures var p := Run(records, uuids, accepted, outputBucket, today, n);
      && p.raised.None?
      && |p.requests| == n
      && (forall k :: 0 <= k < n ==> p.requests[k] == RequestFor(records[k].body.value, uuids[k], outputBucket, today))
    decreases n
  {
    if n > 0 {
      RunRequests(records, uuids, accepted, outputBucket, today, n - 1);
      var p := Run(records, uuids, accepted, outputBucket, today, n - 1);
      var q := Run(records, uuids, accepted, outputBucket, today, n);
      assert q.requests == p.requests + [RequestFor(records[n - 1].body.value, uuids[n - 1], outputBucket, today)];
    }
  }

  /** While every body reads, the failures are empty exactly when every start was
      accepted. */
  lemma {:induction false} RunFailures(records: seq<SqsRecord>, uuids: seq<string>, accepted: seq<bool>,
                                       outputBucket: string, today: string, n: nat)
    requires n <= |records| == |uuids| == |accepted|
    requires forall k :: 0 <= k < n ==> records[k].body.Ok?
    ensures var p := Run(records, uuids, accepted, outputBucket, today, n);
      && p.raised.None?
      && (p.failures == [] <==> forall k :: 0 <= k < n ==> accepted[k])
    decreases n
  {
    if n > 0 {
      RunFailures(records, uuids, accepted, outputBucket, today, n - 1);
    }
  }

  /** The first malformed body ends the invocation with its own fault; the jobs already
      asked for stay asked for, and the failures collected so far are lost with the
      response. */
  lemma RunRaisesAtFirstMalformed(records: seq<SqsRecord>, uuids: seq<string>, accepted: seq<bool>,
                                  outputBucket: string, today: string, k: nat)
    requires k < |records| == |uuids| == |accepted|
    requires records[k].body.Err? && forall j :: 0 <= j < k ==> records[j].body.Ok?
    ensures var p := Run(records, uuids, accepted, outputBucket, today, |records|);
      && p.raised == Some(records[k].body.fault)
      && p.requests == Run(records, uuids, accepted, outputBucket, today, k).requests
      && |p.requests| == k
      && Outcome(p) == Err(records[k].body.fault)
  {
    RunAllRead(records, uuids, accepted, outputBucket, today, k);
    RunStops(records, uuids, accepted, outputBucket, today, k + 1, |records|);
  }

  /** `lambda_handler`, given the uuid drawn for each record, whether each job start is
      accepted, and the `BUCKET` setting: the jobs it asks for, and its response or the
      fault it raises. */
  method LambdaHandler(records: seq<SqsRecord>, uuids: seq<string>, accepted: seq<bool>,
                       outputBucket: string, today: string)
    returns (requests: seq<JobRequest>, outcome: Result<SqsResponse>)
    requires |uuids| == |records| && |accepted| == |records|
    ensures var p := Run(records, uuids, accepted, outputBucket, today, |records|);
      requests == p.requests && outcome == Outcome(p)
  {
    requests := [];
    var failures: seq<string> := [];
    var i := 0;
    while i < |records|
      invariant i <= |records|
      invariant Run(records, uuids, accepted, outputBucket, today, i) == Progress(requests, failures, None)
    {
      var record := records[i];
      if record.body.Err? {
        outcome := Err(record.body.fault);
        RunStops(records, uuids, accepted, outputBucket, today, i + 1, |records|);
        return;
      }
      var obj := record.body.value;
      var s3Path := "s3://" + obj.bucket + "/" + obj.key;
      var jobName := JobNames.Sanitize(obj.key) + "-" + uuids[i];
      requests := requests + [JobRequest(jobName, Settings(true, 10), true, s3Path, outputBucket, today + "/")];
      if !accepted[i] {
        failures := failures + [record.messageId];
      }
      i := i + 1;
    }
    var sqsResponse := SqsResponse(None);
    if |failures| > 0 {
      sqsResponse := SqsResponse(Some(failures));
    }
    outcome := Ok(sqsResponse);
  }
}
