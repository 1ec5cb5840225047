/**
 * `export-excel.js`: prepare the data behind a permitted URL, write it to an
 * XLSX file, upload it, answer with a signed link.
 */
module ExportExcel {
  import opened Common
  import opened ExportResponses

  const XlsxType := "application/vnd.openxmlformats-officedocument.spreadsheetml.sheet"

  /** `xlsx-` and the timestamp: the object name. */
  function ObjectName(isoNow: string): string {
    "xlsx-" + Timestamp(isoNow)
  }

  /** `/tmp/` + name + `.xlsx`: the local file. */
  function TempPath(name: string): string {
    "/tmp/" + name + ".xlsx"
  }

  /**
   * `module.exports.handler`. `prepared` is what `prepareDataForExcel`
   * resolves to, None standing for any falsy value; `generateXlsx` and
   * `uploadToBucket` are reduced to whether they resolve truthy.
   */
  function Handler(event: Event, env: Env, services: Services,
                   prepared: Option<string>, generated: bool, uploaded: bool): (o: Outcome)
    ensures o.response.statusCode in {200, 400, 403, 500}
    ensures o.calls == [] <==> o.response.statusCode in {400, 403}
    ensures o.response.statusCode != 200 ==> o.response == Error(o.response.statusCode)
    ensures o.response.statusCode == 200 ==>
              && |o.calls| == 5 && o.calls[4].CreateSignedLink?
              && o.response == Success(services.sign(o.calls[4].bucket, o.calls[4].name,
                                                     o.calls[4].seconds, o.calls[4].downloadName))
  {
    if !Truthy(event.url) || !Truthy(env.pattern) || !Truthy(env.bucket) then Outcome(Error(400), [])
    else if !services.matches(event.url.value, env.pattern.value) then Outcome(Error(403), [])
    else Export(event.url.value, env.bucket.value, DownloadName(event.filename), services, prepared, generated, uploaded)
  }

  /** The handler past its guards, for a permitted `url`, a `bucket` and the download name. */
  function Export(url: string, bucket: string, dlName: string, services: Services,
                  prepared: Option<string>, generated: bool, uploaded: bool): (o: Outcome)
    ensures o.response == Error(500) || o.response.statusCode == 200
    ensures o.calls != [] && o.calls[0] == PrepareDataForExcel(url)
    ensures o.response.statusCode == 200 ==>
              && |o.calls| == 5 && o.calls[4].CreateSignedLink?
              && o.response == Success(services.sign(o.calls[4].bucket, o.calls[4].name,
                                                     o.calls[4].seconds, o.calls[4].downloadName))
  {
    var filename := ObjectName(services.isoNow);
    var xlsxPath := TempPath(filename);
    var prepare := PrepareDataForExcel(url);
    if prepared.None? then Outcome(Error(500), [prepare])
    else
      var generate := GenerateXlsx(prepared.value, xlsxPath);
      if !generated then Outcome(Error(500), [prepare, generate])
      else
        var upload := UploadToBucket(bucket, filename, xlsxPath, XlsxType);
        if !uploaded then Outcome(Error(500), [prepare, generate, upload])
        else
          var downloadName := services.slugify(dlName) + ".xlsx";
          var link := services.sign(bucket, filename, LinkLifetime, downloadName);
          Outcome(Success(link), [prepare, generate, upload, Unlink(xlsxPath),
                                  CreateSignedLink(bucket, filename, LinkLifetime, downloadName)])
  }

  /**
   * A missing or empty url, pattern or bucket gives 400 before the pattern is
   * tried; a url the pattern does not match gives 403; neither makes a call.
   */
  lemma Guards(event: Event, env: Env, services: Services, prepared: Option<string>, generated: bool, uploaded: bool)
    ensures var o := Handler(event, env, services, prepared, generated, uploaded);
            var missing := !Truthy(event.url) || !Truthy(env.pattern) || !Truthy(env.bucket);
            && (o.response.statusCode == 400 <==> missing)
            && (o.response.statusCode == 403 <==> !missing && !services.matches(event.url.value, env.pattern.value))
            && (o.response.statusCode in {400, 403} ==> o.calls == [])
            && o.response.statusCode in {200, 400, 403, 500}
  {
  }

  /**
   * Past the guards, in this order: falsy prepared data gives 500 before
   * anything is written; a failed generation into `/tmp/xlsx-<timestamp>.xlsx`
   * gives 500 before any upload; a failed upload of that file as
   * `xlsx-<timestamp>` gives 500.
   */
  lemma Failures(event: Event, env: Env, services: Services, prepared: Option<string>, generated: bool, uploaded: bool)
    requires Truthy(event.url) && Truthy(env.pattern) && Truthy(env.bucket)
    requires services.matches(event.url.value, env.pattern.value)
    ensures var o := Handler(event, env, services, prepared, generated, uploaded);
            var name := "xlsx-" + Timestamp(services.isoNow);
            var path := "/tmp/" + name + ".xlsx";
            && o.calls[0] == PrepareDataForExcel(event.url.value)
            && (prepared.None? ==> o.response == Error(500) && |o.calls| == 1)
            && (prepared.Some? ==> o.calls[1] == GenerateXlsx(prepared.value, path))
            && (prepared.Some? && !generated ==> o.response == Error(500) && |o.calls| == 2)
            && (prepared.Some? && generated ==> o.calls[2] == UploadToBucket(env.bucket.value, name, path, XlsxType))
            && (prepared.Some? && generated && !uploaded ==> o.response == Error(500) && |o.calls| == 3)
  {
  }

  /**
   * 200 exactly when every step succeeds; the file is then removed and
   * `xlsx-<timestamp>` signed for 3600 seconds under the slugified download
   * name with `.xlsx`, and the body carries the signed link.
   */
  lemma Succeeds(event: Event, env: Env, services: Services, prepared: Option<string>, generated: bool, uploaded: bool)
    requires Truthy(event.url) && Truthy(env.pattern) && Truthy(env.bucket)
    requires services.matches(event.url.value, env.pattern.value)
    ensures var o := Handler(event, env, services, prepared, generated, uploaded);
            var bucket := env.bucket.value;
            var name := "xlsx-" + Timestamp(services.isoNow);
            var downloadName := services.slugify(DownloadName(event.filename)) + ".xlsx";
            && (o.response.statusCode == 200 <==> prepared.Some? && generated && uploaded)
            && (prepared.Some? && generated && uploaded ==>
                  && o.calls[3..] == [Unlink("/tmp/" + name + ".xlsx"), CreateSignedLink(bucket, name, LinkLifetime, downloadName)]
                  && o.response == Success(services.sign(bucket, name, LinkLifetime, downloadName)))
  {
  }

  /** Without a filename, or with an empty one, the download is named after "onesheet". */
  lemma DefaultDownloadName(url: string, env: Env, services: Services, data: string)
    requires Truthy(Some(url)) && Truthy(env.pattern) && Truthy(env.bucket) && services.matches(url, env.pattern.value)
    ensures Handler(Event(Some(url), None), env, services, Some(data), true, true).calls[4].downloadName
         == services.slugify("onesheet") + ".xlsx"
    ensures Handler(Event(Some(url), Some("")), env, services, Some(data), true, true)
         == Handler(Event(Some(url), None), env, services, Some(data), true, true)
  {
  }
}
