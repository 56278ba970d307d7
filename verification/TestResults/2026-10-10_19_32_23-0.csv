TestResult.DisplayName,TestResult.Outcome,TestResult.Duration,TestResult.ResourceCount,RandomSeed
Patterns.BuildingCaptureAt (well-formedness),Failed,00:00:00.8672532,2075446,4
