/**
 * The voice-analysis page: it accepts a WAV recording of at most 10 MiB, posts it to the
 * backend's audio endpoint, shows the prediction, and prepends a record of the analysis to
 * the signed-in user's stored history.
 */
module Analysis {

  import opened Wrappers
  import Strings
  import Config

  /** `MAX_FILE_SIZE`: 10 MiB. */
  const MaxFileSize: nat := 10 * 1024 * 1024

  datatype AudioFile = AudioFile(name: string, mimeType: string, size: nat)

  /** `isWavFile`: one of the three WAV MIME types, or a name ending in `.wav` in any letter case. */
  predicate IsWavFile(f: AudioFile)
  {
    f.mimeType == "audio/wav" || f.mimeType == "audio/wave" || f.mimeType == "audio/x-wav"
    || Strings.EndsWith(Strings.AsciiLower(f.name), ".wav")
  }

  datatype FileCheck = TooLarge | NotWav | Accepted

  const TooLargeAlert: string := "File is too large. Please upload a WAV file smaller than 10MB."
  const NotWavAlert: string := "Please upload a valid .wav file. The file must be in WAV format."
  const NoFileAlert: string := "Please upload a .wav file first"
  const AnalysisFailedAlert: string := "Error analyzing audio. Please try again."

  /** The verdict of `handleFileChange` on a chosen file: the size is checked before the type. */
  function CheckAudioFile(f: AudioFile): (r: FileCheck)
    ensures r == Accepted <==> f.size <= MaxFileSize && IsWavFile(f)
    ensures f.size > MaxFileSize ==> r == TooLarge
    ensures r == NotWav <==> f.size <= MaxFileSize && !IsWavFile(f)
  {
    if f.size > MaxFileSize then TooLarge else if IsWavFile(f) then Accepted else NotWav
  }

  /** Exactly 10 MiB still passes the size check; one byte more does not. */
  lemma SizeBoundary(name: string, mimeType: string)
    ensures CheckAudioFile(AudioFile(name, mimeType, 10485760)) != TooLarge
    ensures CheckAudioFile(AudioFile(name, mimeType, 10485761)) == TooLarge
  {
  }

  /**
   * The verdict never depends on the letter case of the name: two names that lower-case alike
   * get the same verdict, whatever the MIME type and size.
   */
  lemma {:induction false} VerdictIgnoresNameCase(name: string, name': string, mimeType: string, size: nat)
    requires Strings.AsciiLower(name) == Strings.AsciiLower(name')
    ensures CheckAudioFile(AudioFile(name, mimeType, size)) == CheckAudioFile(AudioFile(name', mimeType, size))
  {
    assert IsWavFile(AudioFile(name, mimeType, size)) == IsWavFile(AudioFile(name', mimeType, size));
  }

  /** In particular a name and its lower-cased form get the same verdict. */
  lemma LowerCasedNameSameVerdict(name: string, mimeType: string, size: nat)
    ensures CheckAudioFile(AudioFile(name, mimeType, size))
            == CheckAudioFile(AudioFile(Strings.AsciiLower(name), mimeType, size))
  {
    Strings.AsciiLowerIdempotent(name);
    VerdictIgnoresNameCase(name, Strings.AsciiLower(name), mimeType, size);
  }

  /** One analysis as it is kept in the stored history. */
  datatype AnalysisRecord = AnalysisRecord(
    id: string,
    date: string,
    prediction: string,
    riskLevel: string,
    reportPath: string,
    plotPath: Option<string>)

  /** The JSON the backend answers with; absent fields are `None`. */
  datatype AudioReply = AudioReply(
    prediction: string,
    plotPath: Option<string>,
    reportPath: Option<string>,
    riskLevel: Option<string>)

  /**
   * The outcome of `fetch(API_ENDPOINTS.AUDIO, ...)`: the request failed, or an HTTP reply
   * arrived, with `ok` its `response.ok`, whose body parsed as JSON (`Some`) or did not (`None`).
   */
  datatype FetchOutcome =
    | NetworkError
    | HttpReply(ok: bool, body: Option<AudioReply>)

  /** The local-storage key of a user's history. */
  function HistoryKey(uid: string): (key: string)
    ensures |key| == 17 + |uid| && key[..17] == "analysis_history_" && key[17..] == uid
  {
    "analysis_history_" + uid
  }

  /** Different users never share a history key. */
  lemma HistoryKeyInjective(a: string, b: string)
    requires HistoryKey(a) == HistoryKey(b)
    ensures a == b
  {
    assert HistoryKey(a)[17..] == a;
  }

  /** `data.RiskLevel || 'low'`. */
  function RiskLevelOrLow(r: Option<string>): (level: string)
    ensures r.Some? && r.value != "" ==> level == r.value
    ensures r.None? || r.value == "" ==> level == "low"
  {
    if r.Some? && r.value != "" then r.value else "low"
  }

  /** `user && data.ReportPath`: the history is written only for a signed-in user and a report. */
  predicate RecordsHistory(user: Option<string>, reply: AudioReply)
  {
    user.Some? && reply.reportPath.Some? && reply.reportPath.value != ""
  }

  /** The record `analyzeAudio` builds from a reply, given a fresh id and the current time. */
  function NewRecord(reply: AudioReply, id: string, date: string): (r: AnalysisRecord)
    requires reply.reportPath.Some?
    ensures r.prediction == reply.prediction && r.reportPath == reply.reportPath.value
    ensures r.riskLevel == RiskLevelOrLow(reply.riskLevel) && r.plotPath == reply.plotPath
  {
    AnalysisRecord(id, date, reply.prediction, RiskLevelOrLow(reply.riskLevel),
                   reply.reportPath.value, reply.plotPath)
  }

  /** The history read back from storage: the stored list, or none yet. */
  function StoredHistory(storage: map<string, seq<AnalysisRecord>>, uid: string): seq<AnalysisRecord>
  {
    if HistoryKey(uid) in storage then storage[HistoryKey(uid)] else []
  }

  /** The page's state, with the browser's local storage of histories by key. */
  class AnalysisPage {
    var file: Option<AudioFile>
    var audioUrl: Option<string>
    var result: Option<string>
    var plotPath: Option<string>
    var reportPath: Option<string>
    var loading: bool
    var storage: map<string, seq<AnalysisRecord>>
    /** The `alert` messages shown, in order. */
    var alerts: seq<string>
    /** The URLs posted to, in order. */
    ghost var requests: seq<string>

    constructor (storage: map<string, seq<AnalysisRecord>>)
      ensures file == None && audioUrl == None && result == None
      ensures plotPath == None && reportPath == None && !loading
      ensures this.storage == storage && alerts == [] && requests == []
    {
      file, audioUrl, result, plotPath, reportPath := None, None, None, None, None;
      loading := false;
      this.storage := storage;
      alerts := [];
      requests := [];
    }

    /** `handleFileChange`; `objectUrl` is what `URL.createObjectURL` gives for the file. */
    method HandleFileChange(selected: Option<AudioFile>, objectUrl: string)
      modifies this`file, this`audioUrl, this`alerts
      ensures selected.None? ==> file == old(file) && audioUrl == old(audioUrl) && alerts == old(alerts)
      ensures selected.Some? ==> match CheckAudioFile(selected.value)
        case Accepted => file == selected && audioUrl == Some(objectUrl) && alerts == old(alerts)
        case TooLarge => file == old(file) && audioUrl == old(audioUrl) && alerts == old(alerts) + [TooLargeAlert]
        case NotWav => file == old(file) && audioUrl == old(audioUrl) && alerts == old(alerts) + [NotWavAlert]
    {
      if selected.None? {
        return;
      }
      var f := selected.value;
      if f.size > MaxFileSize {
        alerts := alerts + [TooLargeAlert];
        return;
      }
      if IsWavFile(f) {
        file := Some(f);
        audioUrl := Some(objectUrl);
      } else {
        alerts := alerts + [NotWavAlert];
      }
    }

    /**
     * `analyzeAudio`, for the signed-in user `user` (if any), the fetch outcome, and the id
     * and timestamp a new history record would get.
     */
    method AnalyzeAudio(user: Option<string>, outcome: FetchOutcome, newId: string, now: string)
      modifies this`result, this`plotPath, this`reportPath, this`loading, this`storage,
               this`alerts, this`requests
      ensures !old(loading) ==> !loading
      ensures old(file).None? ==>
        && result == old(result) && plotPath == old(plotPath) && reportPath == old(reportPath)
        && loading == old(loading) && storage == old(storage) && requests == old(requests)
        && alerts == old(alerts) + [NoFileAlert]
      ensures old(file).Some? ==>
        && !loading
        && requests == old(requests) + [Config.Audio]
        && (if outcome.HttpReply? && outcome.ok && outcome.body.Some? then
              var reply := outcome.body.value;
              && result == Some(reply.prediction)
              && plotPath == reply.plotPath && reportPath == reply.reportPath
              && alerts == old(alerts)
              && storage == if RecordsHistory(user, reply)
                            then old(storage)[HistoryKey(user.value) :=
                                   [NewRecord(reply, newId, now)] + StoredHistory(old(storage), user.value)]
                            else old(storage)
            else
              && result == None && plotPath == None && reportPath == None
              && storage == old(storage)
              && alerts == old(alerts) + [AnalysisFailedAlert])
    {
      if file.None? {
        alerts := alerts + [NoFileAlert];
        return;
      }
      loading := true;
      result := None;
      plotPath := None;
      reportPath := None;
      requests := requests + [Config.Audio];
      if !outcome.HttpReply? || !outcome.ok || outcome.body.None? {
        // a network failure, `!response.ok`, or a body that is not JSON: the catch block
        alerts := alerts + [AnalysisFailedAlert];
      } else {
        var reply := outcome.body.value;
        result := Some(reply.prediction);
        plotPath := reply.plotPath;
        reportPath := reply.reportPath;
        if user.Some? && reply.reportPath.Some? && reply.reportPath.value != "" {
          var key := HistoryKey(user.value);
          var history := if key in storage then storage[key] else [];
          var record := AnalysisRecord(newId, now, reply.prediction, RiskLevelOrLow(reply.riskLevel),
                                       reply.reportPath.value, reply.plotPath);
          history := [record] + history;
          storage := storage[key := history];
        }
      }
      loading := false;
    }
  }

  /**
   * Writing a history keeps the older records in their order behind the new one, and leaves
   * every other user's history as it was.
   */
  lemma PrependKeepsOthers(storage: map<string, seq<AnalysisRecord>>, uid: string, other: string,
                           record: AnalysisRecord)
    ensures var after := storage[HistoryKey(uid) := [record] + StoredHistory(storage, uid)];
            && StoredHistory(after, uid)[0] == record
            && StoredHistory(after, uid)[1..] == StoredHistory(storage, uid)
            && (other != uid ==> StoredHistory(after, other) == StoredHistory(storage, other))
  {
    if other != uid && HistoryKey(other) == HistoryKey(uid) {
      HistoryKeyInjective(other, uid);
    }
  }
}
