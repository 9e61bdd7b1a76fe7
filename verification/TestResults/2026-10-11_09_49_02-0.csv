TestResult.DisplayName,TestResult.Outcome,TestResult.Duration,TestResult.ResourceCount,RandomSeed
GameScanner.MatchAt (well-formedness),Passed,00:00:00.1574123,420106,0
GameScanner.MatchAtComplete (well-formedness),Passed,00:00:00.1026843,62844,0
GameScanner.MatchAtComplete (correctness),Passed,00:00:00.0760617,369929,0
GameScanner.MatchManifestLine (correctness),Passed,00:00:00.0654790,175483,0
GameScanner.MatchManifestLine (well-formedness),Passed,00:00:00.0295048,70864,0
