/** The SpeedSort correlation object: the constructor's rewrites of the merged frame,
    `run` filling the sector models and parameters, `_predict`, `_predict_dir` and
    `synthesize`. */
module SpeedSort {
  import opened Wrappers
  import opened Errors
  import opened Sorting
  import opened TimeSeries
  import opened Reassembly
  import opened SpeedSortFit
  import opened SpeedSortRows

  class SpeedSortModel {
    const sectors: nat
    /** `_binned_direction_series` with the model's sectors, and with the edges
        `i * (360 / sectors)` that `_predict_dir` passes. */
    const binDir: real -> Option<int>
    const veerBin: real -> Option<int>
    const cutoff: real
    const refVeerCutoff: Option<real>
    const targetVeerCutoff: Option<real>
    const tarSpdName: string
    const tarDirName: string
    /** The merged frame before binning. */
    var data: seq<Row>
    var overallVeer: Option<real>
    /** The frame after the bins are joined and NaN rows dropped. */
    var binned: seq<BinnedRow>
    var speedModel: map<int, SectorModel>
    var params: map<int, SectorParams>
    /** The run-wide parameters; `None` until `run`. */
    var summary: Option<Summary>

    /** The binnings give sectors 1..sectors (the veer binning even bins), and so does
        every binned row. */
    ghost predicate Valid()
      reads this
    {
      && BinsInRange(binDir, sectors) && BinsInRange(veerBin, sectors) && EvenBins(veerBin, sectors)
      && forall x :: x in binned ==> 1 <= x.bin <= sectors
    }

    /** `SpeedSort.__init__` on the merged frame, with `lt_ref_speed` given (the MOMM
        default is computed elsewhere) and the calm-period draws `uRef`, `uTar`. */
    constructor (merged: seq<Row>, sectors: nat, ltRefSpeed: real, uRef: seq<real>, uTar: seq<real>,
                 binDir: real -> Option<int>, veerBin: real -> Option<int>, tarSpdName: string, tarDirName: string)
      requires |uRef| == |merged| && |uTar| == |merged|
      requires forall i :: 0 <= i < |merged| ==> 0.0 <= uRef[i] < 1.0 && 0.0 <= uTar[i] < 1.0
      requires BinsInRange(binDir, sectors) && BinsInRange(veerBin, sectors) && EvenBins(veerBin, sectors)
      ensures Valid()
      ensures this.sectors == sectors && this.binDir == binDir && this.veerBin == veerBin
      ensures this.tarSpdName == tarSpdName && this.tarDirName == tarDirName
      ensures cutoff == SpeedCutoff(ltRefSpeed)
      ensures refVeerCutoff == VeerCutoff(Present(merged, RefSpdOf))
      ensures targetVeerCutoff == VeerCutoff(Present(merged, TarSpdOf))
      ensures overallVeer == OverallVeer(RandomizedCalm(merged, uRef, uTar), refVeerCutoff, targetVeerCutoff)
      ensures data == AdjustedLowReference(RandomizedCalm(merged, uRef, uTar), overallVeer)
      ensures binned == BinRows(data, binDir)
      ensures speedModel == map[] && params == map[] && summary == None
    {
      this.sectors := sectors;
      this.binDir := binDir;
      this.veerBin := veerBin;
      this.tarSpdName := tarSpdName;
      this.tarDirName := tarDirName;
      cutoff := SpeedCutoff(ltRefSpeed);
      refVeerCutoff := VeerCutoff(Present(merged, RefSpdOf));
      targetVeerCutoff := VeerCutoff(Present(merged, TarSpdOf));
      data := merged;
      overallVeer := None;
      binned := [];
      speedModel := map[];
      params := map[];
      summary := None;
      new;
      Prepare(uRef, uTar);
    }

    /** The constructor's rewrites of the merged frame, in their order. */
    method Prepare(uRef: seq<real>, uTar: seq<real>)
      requires |uRef| == |data| && |uTar| == |data|
      requires forall i :: 0 <= i < |data| ==> 0.0 <= uRef[i] < 1.0 && 0.0 <= uTar[i] < 1.0
      requires BinsInRange(binDir, sectors) && BinsInRange(veerBin, sectors) && EvenBins(veerBin, sectors)
      modifies this`data, this`overallVeer, this`binned
      ensures Valid()
      ensures overallVeer == OverallVeer(RandomizedCalm(old(data), uRef, uTar), refVeerCutoff, targetVeerCutoff)
      ensures data == AdjustedLowReference(RandomizedCalm(old(data), uRef, uTar), overallVeer)
      ensures binned == BinRows(data, binDir)
    {
      RandomizeCalmPeriods(uRef, uTar);
      GetOverallVeer();
      AdjustLowReferenceSpeedDir();
      BinData();
    }

    /** `_randomize_calm_periods`, row by row. */
    method RandomizeCalmPeriods(uRef: seq<real>, uTar: seq<real>)
      requires |uRef| == |data| && |uTar| == |data|
      requires forall i :: 0 <= i < |data| ==> 0.0 <= uRef[i] < 1.0 && 0.0 <= uTar[i] < 1.0
      modifies this`data
      ensures data == RandomizedCalm(old(data), uRef, uTar)
    {
      var i := 0;
      while i < |data|
        invariant 0 <= i <= |data| == |old(data)|
        invariant forall k :: 0 <= k < i ==> data[k] == CalmRow(old(data)[k], uRef[k], uTar[k])
        invariant forall k :: i <= k < |data| ==> data[k] == old(data)[k]
      {
        data := data[i := CalmRow(data[i], uRef[i], uTar[i])];
        i := i + 1;
      }
    }

    /** `_get_overall_veer`. */
    method GetOverallVeer()
      modifies this`overallVeer
      ensures overallVeer == OverallVeer(data, refVeerCutoff, targetVeerCutoff)
    {
      overallVeer := OverallVeer(data, refVeerCutoff, targetVeerCutoff);
    }

    /** `_adjust_low_reference_speed_dir`, row by row. */
    method AdjustLowReferenceSpeedDir()
      modifies this`data
      ensures data == AdjustedLowReference(old(data), overallVeer)
    {
      var i := 0;
      while i < |data|
        invariant 0 <= i <= |data| == |old(data)|
        invariant forall k :: 0 <= k < i ==> data[k] == AdjustedRow(old(data)[k], overallVeer)
        invariant forall k :: i <= k < |data| ==> data[k] == old(data)[k]
      {
        data := data[i := AdjustedRow(data[i], overallVeer)];
        i := i + 1;
      }
    }

    /** The direction bins joined to the frame and `dropna`. */
    method BinData()
      requires BinsInRange(binDir, sectors) && BinsInRange(veerBin, sectors) && EvenBins(veerBin, sectors)
      modifies this`binned
      ensures binned == BinRows(data, binDir)
      ensures Valid()
    {
      binned := BinRows(data, binDir);
      BinRowsInRange(data, binDir, sectors);
    }

    /** `run`: the run-wide parameters, then a model and parameters for every sector
        that has rows, in sector order. `speed_model` keeps the models of an earlier run;
        `params` starts afresh. */
    method Run()
      requires Valid()
      modifies this`speedModel, this`params, this`summary
      ensures summary == Some(Summary(cutoff, refVeerCutoff, targetVeerCutoff, overallVeer))
      ensures exists fitted ::
                && speedModel == old(speedModel) + fitted
                && Tabulates(fitted, SectorsWithRows(binned, 1, sectors + 1), ModelFn(binned, cutoff))
      ensures Tabulates(params, SectorsWithRows(binned, 1, sectors + 1), ParamsFn(binned, cutoff, refVeerCutoff, targetVeerCutoff))
    {
      params := map[];
      summary := Some(Summary(cutoff, refVeerCutoff, targetVeerCutoff, overallVeer));
      ghost var fitted: map<int, SectorModel> := map[];
      var b := 1;
      while b <= sectors
        invariant 1 <= b <= sectors + 1
        invariant summary == Some(Summary(cutoff, refVeerCutoff, targetVeerCutoff, overallVeer))
        invariant speedModel == old(speedModel) + fitted
        invariant Tabulates(fitted, SectorsWithRows(binned, 1, b), ModelFn(binned, cutoff))
        invariant Tabulates(params, SectorsWithRows(binned, 1, b), ParamsFn(binned, cutoff, refVeerCutoff, targetVeerCutoff))
      {
        SectorsWithRowsStep(binned, 1, b);
        if Group(binned, b) != [] {
          TabulatesAdd(fitted, SectorsWithRows(binned, 1, b), b, ModelFn(binned, cutoff));
          TabulatesAdd(params, SectorsWithRows(binned, 1, b), b, ParamsFn(binned, cutoff, refVeerCutoff, targetVeerCutoff));
          MergeUpdate(old(speedModel), fitted, b, FittedModel(Group(binned, b), cutoff));
          fitted := fitted[b := FittedModel(Group(binned, b), cutoff)];
        }
        FitSector(b);
        b := b + 1;
      }
    }

    /** One pass of `run`'s loop: a model and parameters for sector `b` when it has rows. */
    method FitSector(b: int)
      modifies this`speedModel, this`params
      ensures Group(binned, b) == [] ==> speedModel == old(speedModel) && params == old(params)
      ensures Group(binned, b) != [] ==>
        && speedModel == old(speedModel)[b := FittedModel(Group(binned, b), cutoff)]
        && params == old(params)[b := FittedParamsOf(Group(binned, b), cutoff, refVeerCutoff, targetVeerCutoff)]
    {
      var group := Group(binned, b);
      if group != [] {
        var m := NewSectorModel(RefSpeeds(group), TarSpeeds(group), cutoff);
        FittedModelFits(group, cutoff);
        var model := m.value;
        assert model == FittedModel(group, cutoff);
        speedModel := speedModel[b := model];
        params := params[b := ParamsOf(model, group, refVeerCutoff, targetVeerCutoff)];
      }
    }

    /** `_predict`: group the joined speeds by sector and append each group's
        `sector_predict`, then sort by time. */
    method Predict(xSpd: Series, xDir: Series) returns (r: Result<Series, PyError>)
      requires Valid()
      ensures r == PredictResult(xSpd, xDir, binDir, speedModel, sectors)
    {
      var rows := SpeedBins(InnerJoin(DropNa(xSpd), DropNa(xDir)), binDir);
      var prediction: Series := [];
      var b := 1;
      while b <= sectors
        invariant 1 <= b <= sectors + 1
        invariant prediction == Parts(rows, 1, b, SelectsBin, PredictRow(speedModel))
        invariant forall k :: 1 <= k < b && Occurs(rows, k) ==> k in speedModel
      {
        var part := PredictSector(rows, b);
        if part.None? {
          PredictResultMissing(xSpd, xDir, binDir, speedModel, sectors, b);
          return Err(KeyError);
        }
        PartsStep(rows, 1, b, SelectsBin, PredictRow(speedModel));
        prediction := prediction + part.value;
        b := b + 1;
      }
      PredictResultOk(xSpd, xDir, binDir, speedModel, sectors);
      return Ok(SortBy(prediction, Time));
    }

    /** One pass of `_predict`'s loop: `sector_predict` on the rows of sector `b`, or
        `None` for the `KeyError` of a sector that occurs without a model. */
    method PredictSector(rows: seq<SpeedBin>, b: int) returns (r: Option<Series>)
      ensures r.None? <==> Occurs(rows, b) && b !in speedModel
      ensures r.Some? ==> r.value == Part(rows, b, SelectsBin, PredictRow(speedModel))
    {
      if Occurs(rows, b) {
        if b !in speedModel {
          return None;
        }
        GroupPrediction(rows, b, speedModel);
        return Some(SectorPredict(speedModel[b], GroupSpeeds(rows, b)));
      }
      PartOfUnselected(rows, b, SelectsBin, PredictRow(speedModel));
      return Some([]);
    }

    /** `_predict_dir` with even bins. */
    method PredictDir(xDir: Series) returns (r: Result<Series, PyError>)
      requires Valid()
      ensures r == PredictDirResult(params, sectors, veerBin, xDir)
    {
      var secVeer: seq<Option<real>> := [];
      var i := 1;
      while i <= sectors
        invariant 1 <= i <= sectors + 1
        invariant |secVeer| == i - 1
        invariant forall k :: 1 <= k < i ==> k in params && secVeer[k - 1] == params[k].averageVeer
      {
        if i !in params {
          return Err(KeyError);
        }
        secVeer := secVeer + [params[i].averageVeer];
        i := i + 1;
      }
      if 1 !in params {
        return Err(KeyError);
      }
      secVeer := secVeer + [params[1].averageVeer];
      if sectors == 0 {
        return Err(ZeroDivisionError);
      }
      assert secVeer == SectorVeers(params, sectors).value;
      var x := DirRows(DropNa(xDir), secVeer, veerBin, sectors);
      return Ok(SortBy(x, Time));
    }

    /** `synthesize`: the averaged series `avgRefSpd`, `avgRefDir` and `avgTarSpd` stand
        for `average_data_by_period` of the stored inputs. */
    method Synthesize(inputSpd: Option<Series>, inputDir: Option<Series>,
                      avgRefSpd: Series, avgRefDir: Series, avgTarSpd: Series) returns (r: Result<Synthesized, PyError>)
      requires Valid()
      ensures r == SynthesizeResult(inputSpd, inputDir, avgRefSpd, avgRefDir, avgTarSpd, binDir, veerBin, sectors,
                                    speedModel, params, tarSpdName, tarDirName)
    {
      var output: Series;
      var dirOutput: Series;
      if inputSpd.None? && inputDir.None? {
        var p := Predict(avgRefSpd, avgRefDir);
        if p.Err? {
          return Err(p.error);
        }
        output := CombineFirst(avgTarSpd, p.value);
        var d := PredictDir(avgRefDir);
        if d.Err? {
          return Err(d.error);
        }
        dirOutput := d.value;
      } else {
        if inputSpd.None? || inputDir.None? {
          return Err(AttributeError);
        }
        var p := Predict(inputSpd.value, inputDir.value);
        if p.Err? {
          return Err(p.error);
        }
        output := p.value;
        var d := PredictDir(inputDir.value);
        if d.Err? {
          return Err(d.error);
        }
        dirOutput := d.value;
      }
      var clamped := MapValues(output, Clamp);
      return Ok(Synthesized(tarSpdName + "_Synthesized", tarDirName + "_Synthesized", InnerJoin(clamped, dirOutput)));
    }
  }
}
